/** One channel state of the WebSocket client under every interleaving
    (ws_client.go). Calls let go of the lock around each send, so the steps
    between two releases are separate here, and any step of another call or of
    the listener may come in between. There is one listener. */
module WsInterleaving {
  import opened Basics
  import opened WsModel

  /** What a call is sending: a subscribe, `own` when it is AddMarkets' (which
      lists its tickers only when it is done), or an update on the SID it read. */
  datatype Aim = Subscribing(own: bool) | Updating(sid: int, action: Action)

  /** Lock released; id taken (subscribes only); write returned, lock not yet
      taken again. */
  datatype Progress = Unlocked | Registered(id: int) | Returned(ok: bool)

  datatype Task = Task(aim: Aim, tickers: Tickers, progress: Progress)

  /** Between frames; in the flush loop with the lock released, before and after
      the write. */
  datatype Listener = Idle | Holding(sid: int, tickers: Tickers) | Flushed(sid: int, ok: bool)

  /** What happened to the queue so far. */
  datatype Deed =
    | Queued(tickers: Tickers)
    | Taken(sid: int, tickers: Tickers)
    | Tried(sid: int, tickers: Tickers, ok: bool)

  /** A channel state, the ids in flight for its name, the SIDs that lead to it,
      the calls under way on it and the listener. `attached`: it is still the
      state stored under its name. */
  datatype Local = Local(
    ch: Channel,
    attached: bool,
    inflight: set<int>,
    lastId: int,
    routes: set<int>,
    calls: map<nat, Task>,
    listener: Listener,
    reconnect: bool,
    history: seq<Deed>)

  datatype Label =
    | Begin(n: nat, request: Request)
    | Resubscribe(n: nat)
    | Register(n: nat, id: int)
    | Send(n: nat, ok: bool)
    | Finish(n: nat)
    | Receive(frame: Frame)
    | FlushSend(ok: bool)
    | FlushReturn
    | Lose
    | Others(inflight: set<int>, routes: set<int>, attached: bool)

  // ---------------------------------------------------------------------
  // The steps
  // ---------------------------------------------------------------------

  function Start(s: Local, n: nat, aim: Aim, tickers: Tickers): Local {
    s.(calls := s.calls[n := Task(aim, tickers, Unlocked)])
  }

  function BeginAdd(s: Local, n: nat, tickers: Tickers): Local {
    var scoped, absent := s.(ch := Scope(s.ch)), tickers - s.ch.markets;
    if absent == {} then scoped
    else if s.ch.sid.Some? then Start(scoped, n, Updating(s.ch.sid.value, AddMarkets), absent)
    else if s.inflight != {} then s.(ch := Queue(scoped.ch, absent), history := s.history + [Queued(absent)])
    else Start(scoped, n, Subscribing(true), absent)
  }

  /** The first locked section of a call; Subscribe finds the channel there, and
      Unsubscribe is among the steps of others. */
  function BeginCall(s: Local, n: nat, r: Request): Local {
    match r
    case Add(tickers, _) => BeginAdd(s, n, tickers)
    case Remove(tickers) =>
      if s.ch.sid.None? then s
      else Start(s.(ch := Scope(s.ch)), n, Updating(s.ch.sid.value, DeleteMarkets), tickers)
    case Snapshot(tickers) =>
      if s.ch.sid.None? then s else Start(s, n, Updating(s.ch.sid.value, GetSnapshot), tickers)
    case _ => s
  }

  /** The last locked section of a call: what a written command changes locally. */
  function Completed(ch: Channel, task: Task): Channel {
    match task.aim
    case Subscribing(own) => if own then AddLocally(ch, task.tickers) else ch
    case Updating(_, AddMarkets) => AddLocally(ch, task.tickers)
    case Updating(_, DeleteMarkets) => RemoveLocally(ch, task.tickers)
    case Updating(_, GetSnapshot) => ch
  }

  /** One turn of the flush loop up to its send: test the guard, take the queue,
      release the lock. */
  function FlushTurn(s: Local, sid: int): Local {
    if s.ch.pending == {} then s.(listener := Idle)
    else s.(ch := s.ch.(pending := {}),
            listener := Holding(sid, s.ch.pending),
            history := s.history + [Taken(sid, s.ch.pending)])
  }

  function Numbered(s: Local, seqNo: int): Local {
    s.(reconnect := s.reconnect || IsGap(s.ch, seqNo), ch := s.ch.(seqNo := seqNo))
  }

  function ReceiveFrame(s: Local, f: Frame): Local {
    match f
    case Subscribed(id, body) =>
      if id !in s.inflight then s
      else
        var t := s.(inflight := s.inflight - {id});
        if body.None? || !s.attached then t
        else FlushTurn(t.(ch := t.ch.(sid := body), routes := t.routes + {body.value}), body.value)
    case Acknowledged(sid, seqNo, tickers) =>
      if sid !in s.routes then s else var t := Numbered(s, seqNo); t.(ch := Reconcile(t.ch, tickers))
    case Unsubscribed(sid) => s.(routes := s.routes - {sid})
    case Data(sid, seqNo, known) => if !known || sid !in s.routes then s else Numbered(s, seqNo)
    case Ignored => s
  }

  predicate Enabled(s: Local, l: Label) {
    match l
    case Begin(n, _) => s.attached && n !in s.calls
    case Resubscribe(n) => s.attached && n !in s.calls && Recoverable(s.ch)
    case Register(n, id) =>
      n in s.calls && s.calls[n].aim.Subscribing? && s.calls[n].progress.Unlocked? && id > s.lastId
    case Send(n, _) =>
      && n in s.calls
      && if s.calls[n].aim.Subscribing? then s.calls[n].progress.Registered? else s.calls[n].progress.Unlocked?
    case Finish(n) => n in s.calls && s.calls[n].progress.Returned?
    case Receive(_) => s.listener.Idle?
    case FlushSend(_) => s.listener.Holding?
    case FlushReturn => s.listener.Flushed?
    case Lose => s.listener.Idle?
    case Others(_, routes, attached) => routes <= s.routes && (attached ==> s.attached)
  }

  /** One step. Others: calls that hold another state of this name, and
      Unsubscribe, may change the ids in flight, remove SIDs and detach this
      state. A recovery may overlap with frames here, which only adds runs. */
  function Step(s: Local, l: Label): Local
    requires Enabled(s, l)
  {
    match l
    case Begin(n, r) => BeginCall(s, n, r)
    case Resubscribe(n) => Start(s, n, Subscribing(false), s.ch.markets)
    case Register(n, id) =>
      s.(lastId := id, inflight := s.inflight + {id}, calls := s.calls[n := s.calls[n].(progress := Registered(id))])
    case Send(n, ok) => s.(calls := s.calls[n := s.calls[n].(progress := Returned(ok))])
    case Finish(n) =>
      s.(calls := s.calls - {n}, ch := if s.calls[n].progress.ok then Completed(s.ch, s.calls[n]) else s.ch)
    case Receive(frame) => ReceiveFrame(s, frame)
    case FlushSend(ok) =>
      s.(listener := Flushed(s.listener.sid, ok),
         history := s.history + [Tried(s.listener.sid, s.listener.tickers, ok)])
    case FlushReturn =>
      if s.listener.ok then FlushTurn(s, s.listener.sid) else s.(reconnect := true, listener := Idle)
    case Lose =>
      s.(inflight := {}, routes := {}, ch := if s.attached then Detached(s.ch) else s.ch)
    case Others(inflight, routes, attached) => s.(inflight := inflight, routes := routes, attached := attached)
  }

  /** A state as it is stored under its name, or found after earlier runs: queued
      tickers only without a SID. */
  predicate Initial(s: Local) {
    && s.calls == map[] && s.listener.Idle?
    && (s.ch.pending != {} ==> s.ch.sid.None?)
    && s.history == (if s.ch.pending == {} then [] else [Queued(s.ch.pending)])
  }

  ghost predicate IsRun(states: seq<Local>, labels: seq<Label>) {
    && |states| == |labels| + 1 && Initial(states[0])
    && forall i :: 0 <= i < |labels| ==> Enabled(states[i], labels[i]) && states[i + 1] == Step(states[i], labels[i])
  }

  // ---------------------------------------------------------------------
  // The queue's history
  // ---------------------------------------------------------------------

  /** Tickers waiting, and those taken but not yet tried with their SID. */
  datatype Ledger = Ledger(waiting: Tickers, held: Option<(int, Tickers)>)

  /** What a history leaves, if in it every take is of exactly what was waiting,
      and every take is tried once, on its SID, before the next. */
  function Balance(h: seq<Deed>): Option<Ledger> {
    if h == [] then Some(Ledger({}, None))
    else
      var before, last := Balance(h[..|h| - 1]), h[|h| - 1];
      if before.None? then None
      else
        var b := before.value;
        match last
        case Queued(tickers) => Some(b.(waiting := b.waiting + tickers))
        case Taken(sid, tickers) =>
          if b.held.None? && tickers == b.waiting && tickers != {} then Some(Ledger({}, Some((sid, tickers)))) else None
        case Tried(sid, tickers, _) =>
          if b.held == Some((sid, tickers)) then Some(b.(held := None)) else None
  }

  lemma {:induction false} BalanceOfPrefix(h: seq<Deed>, k: nat)
    requires Balance(h).Some? && k <= |h|
    ensures Balance(h[..k]).Some?
  {
    if k == |h| {
      assert h[..k] == h;
    } else {
      BalanceOfPrefix(h[..|h| - 1], k);
      assert h[..|h| - 1][..k] == h[..k];
    }
  }

  /** Queued at `i` and not taken before position `k`. */
  predicate WaitsFrom(h: seq<Deed>, i: nat, k: nat, t: string)
    requires k <= |h|
  {
    i < k && h[i].Queued? && t in h[i].tickers && forall j :: i < j < k ==> !h[j].Taken?
  }

  lemma {:induction false} WaitingMeans(h: seq<Deed>, t: string)
    requires Balance(h).Some?
    ensures t in Balance(h).value.waiting <==> exists i :: WaitsFrom(h, i, |h|, t)
  {
    if h != [] {
      var k := |h| - 1;
      var front := h[..k];
      BalanceOfPrefix(h, k);
      WaitingMeans(front, t);
      if i :| WaitsFrom(front, i, k, t) {
        assert h[k].Taken? || WaitsFrom(h, i, |h|, t);
      }
      if i :| WaitsFrom(h, i, |h|, t) {
        assert i == k || WaitsFrom(front, i, k, t);
      }
      if h[k].Queued? && t in h[k].tickers {
        assert WaitsFrom(h, k, |h|, t);
      }
    }
  }

  /** In a balanced history, a take holds exactly the tickers queued since the
      take before it: a queued ticker goes into the next take and no other. */
  lemma {:induction false} TakesWhatWasQueued(h: seq<Deed>, k: nat, t: string)
    requires Balance(h).Some? && k < |h| && h[k].Taken?
    ensures t in h[k].tickers <==> exists i :: WaitsFrom(h, i, k, t)
  {
    BalanceOfPrefix(h, k);
    BalanceOfPrefix(h, k + 1);
    assert h[..k + 1][..k] == h[..k];
    WaitingMeans(h[..k], t);
    if i :| WaitsFrom(h[..k], i, k, t) {
      assert WaitsFrom(h, i, k, t);
    }
    if i :| WaitsFrom(h, i, k, t) {
      assert WaitsFrom(h[..k], i, k, t);
    }
  }

  lemma {:induction false} HeldMeans(h: seq<Deed>) returns (k: nat)
    requires Balance(h).Some? && Balance(h).value.held.Some?
    ensures var held := Balance(h).value.held.value;
            k < |h| && h[k] == Taken(held.0, held.1) && forall j :: k < j < |h| ==> h[j].Queued?
  {
    k := |h| - 1;
    if !h[k].Taken? {
      BalanceOfPrefix(h, k);
      k := HeldMeans(h[..k]);
    }
  }

  /** Every attempted add_markets of the flush is for the latest take, with its
      tickers, on its SID, and is the only attempt for it. */
  lemma {:induction false} TriesWhatWasTaken(h: seq<Deed>, j: nat) returns (k: nat)
    requires Balance(h).Some? && j < |h| && h[j].Tried?
    ensures k < j && h[k] == Taken(h[j].sid, h[j].tickers)
    ensures forall i :: k < i < j ==> h[i].Queued?
  {
    BalanceOfPrefix(h, j);
    BalanceOfPrefix(h, j + 1);
    assert h[..j + 1][..j] == h[..j];
    k := HeldMeans(h[..j]);
    assert forall i :: k < i < j ==> h[i] == h[..j][i];
  }

  // ---------------------------------------------------------------------
  // Every reachable state
  // ---------------------------------------------------------------------

  function HeldBy(listener: Listener): Option<(int, Tickers)> {
    if listener.Holding? then Some((listener.sid, listener.tickers)) else None
  }

  /** Tickers wait only while the SID is unknown; a flush runs on the channel's
      SID; the history accounts for both. */
  predicate QueueInvariant(s: Local) {
    && (s.ch.pending != {} ==> s.ch.sid.None?)
    && (!s.listener.Idle? ==> s.ch.sid == Some(s.listener.sid))
    && Balance(s.history) == Some(Ledger(s.ch.pending, HeldBy(s.listener)))
  }

  lemma {:induction false} Recorded(h: seq<Deed>, d: Deed)
    ensures (h + [d])[..|h + [d]| - 1] == h && (h + [d])[|h + [d]| - 1] == d
  {
  }

  lemma {:induction false} FlushTurnKeepsQueue(s: Local, sid: int)
    requires s.ch.sid == Some(sid) && Balance(s.history) == Some(Ledger(s.ch.pending, None))
    ensures QueueInvariant(FlushTurn(s, sid))
  {
    Recorded(s.history, Taken(sid, s.ch.pending));
  }

  lemma {:induction false} BeginKeepsQueue(s: Local, n: nat, r: Request)
    requires QueueInvariant(s)
    ensures QueueInvariant(BeginCall(s, n, r))
  {
    hide Balance;
    match r
    case Add(tickers, _) => QueueingKeepsQueue(s, tickers - s.ch.markets);
    case Remove(_) =>
    case Snapshot(_) =>
    case _ =>
  }

  lemma {:induction false} QueueingKeepsQueue(s: Local, tickers: Tickers)
    requires QueueInvariant(s)
    ensures s.ch.sid.None? ==>
              QueueInvariant(s.(ch := Queue(Scope(s.ch), tickers), history := s.history + [Queued(tickers)]))
  {
    Recorded(s.history, Queued(tickers));
  }

  lemma {:induction false} ReceiveKeepsQueue(s: Local, frame: Frame)
    requires QueueInvariant(s) && s.listener.Idle?
    ensures QueueInvariant(ReceiveFrame(s, frame))
  {
    hide Balance, FlushTurn;
    if frame.Subscribed? && frame.id in s.inflight && frame.body.Some? && s.attached {
      var sid := frame.body.value;
      var t := s.(inflight := s.inflight - {frame.id}, ch := s.ch.(sid := frame.body), routes := s.routes + {sid});
      FlushTurnKeepsQueue(t, sid);
    }
  }

  lemma {:induction false} FlushSendKeepsQueue(s: Local, ok: bool)
    requires QueueInvariant(s) && s.listener.Holding?
    ensures QueueInvariant(Step(s, FlushSend(ok)))
  {
    Recorded(s.history, Tried(s.listener.sid, s.listener.tickers, ok));
  }

  lemma {:induction false} StepKeepsQueue(s: Local, l: Label)
    requires QueueInvariant(s) && Enabled(s, l)
    ensures QueueInvariant(Step(s, l))
  {
    hide Balance, FlushTurn, BeginCall;
    match l
    case Begin(n, r) => BeginKeepsQueue(s, n, r);
    case Resubscribe(_) =>
    case Register(_, _) =>
    case Send(_, _) =>
    case Finish(n) =>
    case Receive(frame) => ReceiveKeepsQueue(s, frame);
    case FlushSend(ok) => FlushSendKeepsQueue(s, ok);
    case FlushReturn =>
      if s.listener.ok {
        FlushTurnKeepsQueue(s, s.listener.sid);
      }
    case Lose =>
    case Others(_, _, _) =>
  }

  /** Under every interleaving: tickers are queued only while the SID is unknown;
      the queue and the flush account for every ticker ever queued; and when a
      flush's send has returned nothing is queued, so the loop body runs at most
      once for each reply. */
  lemma {:induction false} PendingFlush(states: seq<Local>, labels: seq<Label>, n: nat)
    requires IsRun(states, labels) && n < |states|
    ensures QueueInvariant(states[n])
    ensures states[n].listener.Flushed? ==> FlushTurn(states[n], states[n].listener.sid).listener.Idle?
  {
    if n == 0 {
      var s := states[0];
      assert [Queued(s.ch.pending)][..0] == [];
      assert {} + s.ch.pending == s.ch.pending;
    } else {
      PendingFlush(states, labels, n - 1);
      StepKeepsQueue(states[n - 1], labels[n - 1]);
    }
  }

  /** When the reply comes, the queue is taken and a turn of the loop begins
      exactly if something was queued; the take names the reply's SID. */
  lemma {:induction false} ReplyTakesQueue(s: Local, id: int, sid: int)
    requires QueueInvariant(s) && s.listener.Idle? && s.attached && id in s.inflight
    ensures var t := Step(s, Receive(Subscribed(id, Some(sid))));
      && t.ch == Bind(s.ch, sid)
      && (t.listener.Idle? <==> s.ch.pending == {})
      && t.history == s.history + if s.ch.pending == {} then [] else [Taken(sid, s.ch.pending)]
  {
  }

  // ---------------------------------------------------------------------
  // Racing subscribes
  // ---------------------------------------------------------------------

  /** Steps that neither answer a subscribe, lose the connection nor belong to
      another state of the name. */
  predicate KeepsWaiting(l: Label) {
    !(l.Receive? && l.frame.Subscribed?) && !l.Lose? && !l.Others?
  }

  ghost predicate IsStretch(states: seq<Local>, labels: seq<Label>) {
    && |states| == |labels| + 1
    && forall i :: 0 <= i < |labels| ==> Enabled(states[i], labels[i]) && states[i + 1] == Step(states[i], labels[i])
  }

  /** Over any such stretch the channel stays without SID, and something is in
      flight at its end exactly if some call registered its id meanwhile. */
  lemma {:induction false} WaitingStretch(states: seq<Local>, labels: seq<Label>, k: nat)
    requires IsStretch(states, labels) && (forall i :: 0 <= i < |labels| ==> KeepsWaiting(labels[i]))
    requires states[0].attached && states[0].ch.sid.None? && states[0].listener.Idle? && states[0].inflight == {}
    requires k <= |labels|
    ensures states[k].attached && states[k].ch.sid.None? && states[k].listener.Idle?
    ensures states[k].inflight != {} <==> exists i :: 0 <= i < k && labels[i].Register?
  {
    if k > 0 {
      WaitingStretch(states, labels, k - 1);
      StaysWaiting(states[k - 1], labels[k - 1]);
    }
  }

  lemma {:induction false} StaysWaiting(s: Local, l: Label)
    requires Enabled(s, l) && KeepsWaiting(l) && s.attached && s.ch.sid.None? && s.listener.Idle?
    ensures var t := Step(s, l);
      && t.attached && t.ch.sid.None? && t.listener.Idle?
      && (t.inflight != {} <==> s.inflight != {} || l.Register?)
  {
    if l.Register? {
      assert l.id in Step(s, l).inflight;
    }
  }

  /** Two AddMarkets calls on a channel without SID, with anything but an answer,
      a loss or another state's doing in between: the second, when it has tickers
      to add, sends a subscribe of its own exactly if no id was registered since
      the first began; otherwise it queues. */
  lemma {:induction false} SecondSubscribeIff(states: seq<Local>, labels: seq<Label>, b: nat, y: Tickers)
    requires IsStretch(states, labels) && labels != [] && labels[0].Begin? && labels[0].request.Add?
    requires forall i :: 0 <= i < |labels| ==> KeepsWaiting(labels[i])
    requires states[0].attached && states[0].ch.sid.None? && states[0].listener.Idle? && states[0].inflight == {}
    requires b !in states[|labels|].calls && y - states[|labels|].ch.markets != {}
    ensures var s, registered := states[|labels|], exists i :: 0 <= i < |labels| && labels[i].Register?;
            Enabled(s, Begin(b, Add(y, false)))
            && var t := Step(s, Begin(b, Add(y, false)));
               && (b in t.calls && t.calls[b].aim == Subscribing(true) <==> !registered)
               && (registered ==> t.ch.pending == s.ch.pending + (y - s.ch.markets))
  {
    WaitingStretch(states, labels, |labels|);
  }
}
