/** The WebSocket client object (ws_client.go): maps of heap-allocated channel
    states, updated in place. Every method refines the function of WsModel that
    describes it; a call runs as one atomic step, and whether a write succeeds is
    decided by `wire`. */
module WsClient {
  import opened Basics
  import opened WsModel
  import opened WsIndex
  import opened WsSequence

  class ChannelState {
    const name: string
    var markets: Tickers
    var pendingMarkets: Tickers
    var sid: Option<int>
    var seqNo: int
    var global: bool

    constructor (name: string)
      ensures this.name == name && Value() == NewChannel({}, false)
    {
      this.name := name;
      markets, pendingMarkets, sid, seqNo, global := {}, {}, None, 0, false;
    }

    function Value(): Channel
      reads this
    {
      Channel(markets, pendingMarkets, sid, seqNo, global)
    }
  }

  /** What the tables' agreement says about one channel. */
  ghost predicate Ready(c: Client, ch: string) {
    && (forall i, j :: i in c.inflight && j in c.inflight && c.inflight[i] == ch && c.inflight[j] == ch ==> i == j)
    && (ch !in c.channels ==> !IsInflight(c, ch))
    && (forall s :: s in c.sids && c.sids[s] == ch ==> ch in c.channels && c.channels[ch].sid == Some(s))
  }

  /** The channels after the ones outside `rest` have lost their SID. */
  function DetachExcept(channels: map<string, Channel>, rest: set<string>): map<string, Channel> {
    map ch | ch in channels :: if ch in rest then channels[ch] else Detached(channels[ch])
  }

  lemma {:induction false} DetachNone(channels: map<string, Channel>, rest: set<string>)
    requires channels.Keys <= rest
    ensures DetachExcept(channels, rest) == channels
  {
  }

  lemma {:induction false} DetachOne(channels: map<string, Channel>, rest: set<string>, ch: string)
    requires ch in rest && ch in channels
    ensures var more := DetachExcept(channels, rest);
            ch in more && more[ch] == channels[ch]
            && more[ch := Detached(channels[ch])] == DetachExcept(channels, rest - {ch})
  {
    var more := DetachExcept(channels, rest)[ch := Detached(channels[ch])];
    forall x ensures x in more <==> x in DetachExcept(channels, rest - {ch}) {
    }
  }

  lemma {:induction false} DetachAll(channels: map<string, Channel>)
    ensures DetachExcept(channels, {}) == map ch | ch in channels :: Detached(channels[ch])
  {
  }

  /** A call's turn at channel `i` of its list. */
  lemma {:induction false} NextChannel(c: Client, names: seq<string>, i: nat, r: Request, wire: Wire)
    requires Indexed(c) && i <= |names|
    ensures i == |names| ==> RequestEach(c, names[i..], r, wire) == (c, Ok)
    ensures i < |names| ==> Ready(c, names[i])
    ensures i < |names| ==>
              var (d, status) := RequestOne(c, names[i], r, wire);
              && Indexed(d)
              && RequestEach(c, names[i..], r, wire)
                 == if status.Ok? then RequestEach(d, names[i + 1..], r, wire) else (d, status)
  {
    if i < |names| {
      hide Indexed, RequestOne;
      RequestsKeepIndex(c, [names[i]], r, wire);
      assert [names[i]][1..] == [] && names[i..][1..] == names[i + 1..];
      assert RequestEach(c, [names[i]], r, wire).0 == RequestOne(c, names[i], r, wire).0;
    }
  }

  class WSClient {
    var msgID: int
    var channels: map<string, ChannelState>
    var sidMap: map<int, ChannelState>
    var pendingInit: map<int, string>
    var connected: bool
    var forceReconnect: bool
    /** The client as a value, with the log of attempted writes. */
    ghost var model: Client

    /** The fields are what the model says. */
    ghost predicate Coupled()
      reads this, channels.Values
    {
      && msgID == model.msgID && connected == model.connected && forceReconnect == model.forceReconnect
      && pendingInit == model.inflight
      && channels.Keys == model.channels.Keys && sidMap.Keys == model.sids.Keys
      && Linked()
    }

    /** States are filed under their own names, and SIDs lead to filed states. */
    ghost predicate Linked()
      reads this, channels.Values
    {
      && (forall ch :: ch in channels ==>
            ch in model.channels && channels[ch].name == ch && channels[ch].Value() == model.channels[ch])
      && (forall s :: s in sidMap ==>
            s in model.sids && model.sids[s] in channels && sidMap[s] == channels[model.sids[s]])
    }

    lemma {:induction false} FiledAs(ch: string)
      requires Coupled() && ch in channels
      ensures Filed(channels[ch]) && channels[ch].name == ch && channels[ch].Value() == model.channels[ch]
    {
    }

    /** The invariant between calls. */
    ghost predicate Valid()
      reads this, channels.Values
    {
      Coupled() && Indexed(model)
    }

    constructor ()
      ensures Valid() && model == Start() && channels == map[]
    {
      msgID, connected, forceReconnect := 0, false, false;
      channels, sidMap, pendingInit := map[], map[], map[];
      model := Start();
    }

    // -------------------------------------------------------------------
    // Sending
    // -------------------------------------------------------------------

    /** Fails without a connection; otherwise the wire decides. */
    method WriteJSON(command: Command, wire: Wire) returns (ok: bool)
      modifies this`model
      ensures ok == (connected && wire(command.id))
      ensures model == old(model).(log := old(model).log + [Sent(command, ok)])
    {
      ok := connected && wire(command.id);
      model := model.(log := model.log + [Sent(command, ok)]);
    }

    method SendSubscribeTo(ch: string, wanted: Option<Tickers>, snapshot: bool, wire: Wire) returns (ok: bool)
      requires Coupled()
      modifies this`msgID, this`pendingInit, this`model
      ensures Coupled() && model == SendSubscribe(old(model), ch, wanted, snapshot, wire)
      ensures ok == Delivers(old(model), wire)
    {
      msgID := msgID + 1;
      var id := msgID;
      pendingInit := pendingInit[id := ch];
      model := model.(msgID := id, inflight := pendingInit);
      ok := WriteJSON(Command.Subscribe(id, ch, wanted, snapshot), wire);
    }

    method SendUnsubscribeFrom(sid: int, wire: Wire) returns (ok: bool)
      requires Coupled()
      modifies this`msgID, this`model
      ensures Coupled() && model == SendUnsubscribe(old(model), sid, wire)
      ensures ok == Delivers(old(model), wire)
    {
      msgID := msgID + 1;
      model := model.(msgID := msgID);
      ok := WriteJSON(Command.Unsubscribe(msgID, sid), wire);
    }

    method SendUpdateSub(sid: int, tickers: Tickers, action: Action, snapshot: bool, wire: Wire) returns (ok: bool)
      requires Coupled()
      modifies this`msgID, this`model
      ensures Coupled() && model == SendUpdate(old(model), sid, tickers, action, snapshot, wire)
      ensures ok == Delivers(old(model), wire)
    {
      msgID := msgID + 1;
      model := model.(msgID := msgID);
      ok := WriteJSON(Command.Update(msgID, sid, tickers, action, snapshot), wire);
    }

    /** Removes one id of the channel; there is no other when ids are unique. */
    method DeletePendingInitForChannel(ch: string)
      requires Coupled()
      requires forall i, j ::
                 i in pendingInit && j in pendingInit && pendingInit[i] == ch && pendingInit[j] == ch ==> i == j
      modifies this`pendingInit, this`model
      ensures Coupled() && model == old(model).(inflight := DropInflight(old(model).inflight, ch))
    {
      if id :| id in pendingInit && pendingInit[id] == ch {
        DropOne(pendingInit, ch, id);
        pendingInit := pendingInit - {id};
      } else {
        DropNone(pendingInit, ch);
      }
      model := model.(inflight := pendingInit);
    }

    method PendingInitForChannel(ch: string) returns (pending: bool)
      requires Coupled()
      ensures pending == IsInflight(model, ch)
    {
      pending := exists id :: id in pendingInit && pendingInit[id] == ch;
    }

    method NewState(ch: string, wanted: Option<Tickers>) returns (state: ChannelState)
      ensures fresh(state) && state.name == ch
      ensures state.Value() == NewChannel(if wanted.Some? then wanted.value else {}, wanted.None?)
    {
      state := new ChannelState(ch);
      state.global := wanted.None?;
      if wanted.Some? {
        state.markets := wanted.value;
      }
    }

    /** Files a state, in the fields and in the model. */
    method Register(state: ChannelState)
      requires Coupled() && state.name !in channels
      modifies this`channels, this`model
      ensures Coupled() && channels == old(channels)[state.name := state]
      ensures model == old(model).(channels := old(model).channels[state.name := state.Value()])
    {
      channels := channels[state.name := state];
      model := model.(channels := model.channels[state.name := state.Value()]);
    }

    /** Unfiles a channel that no SID leads to. */
    method Unregister(ch: string)
      requires Coupled() && forall s :: s in model.sids ==> model.sids[s] != ch
      modifies this`channels, this`model
      ensures Coupled() && channels == old(channels) - {ch}
      ensures model == old(model).(channels := old(model).channels - {ch})
    {
      channels := channels - {ch};
      model := model.(channels := model.channels - {ch});
    }

    /** Takes back a channel whose subscribe was not written. */
    method ForgetChannel(ch: string)
      requires Coupled() && (forall s :: s in model.sids ==> model.sids[s] != ch)
      requires forall i, j ::
                 i in pendingInit && j in pendingInit && pendingInit[i] == ch && pendingInit[j] == ch ==> i == j
      modifies this`channels, this`pendingInit, this`model
      ensures Coupled() && channels == old(channels) - {ch} && model == Forget(old(model), ch)
    {
      hide Linked, DropInflight;
      Unregister(ch);
      DeletePendingInitForChannel(ch);
    }

    /** The state is the one filed under its name. */
    ghost predicate Filed(state: ChannelState)
      reads this
    {
      state.name in channels && channels[state.name] == state
    }

    method SetMarkets(state: ChannelState, markets: Tickers)
      requires Coupled() && Filed(state)
      modifies this`model, state`markets
      ensures Coupled() && state.markets == markets
      ensures model
              == old(model).(channels := old(model).channels[state.name := old(state.Value()).(markets := markets)])
    {
      state.markets := markets;
      model := model.(channels := model.channels[state.name := state.Value()]);
    }

    method SetPending(state: ChannelState, pending: Tickers)
      requires Coupled() && Filed(state)
      modifies this`model, state`pendingMarkets
      ensures Coupled() && state.pendingMarkets == pending
      ensures model
              == old(model).(channels := old(model).channels[state.name := old(state.Value()).(pending := pending)])
    {
      state.pendingMarkets := pending;
      model := model.(channels := model.channels[state.name := state.Value()]);
    }

    method SetScoped(state: ChannelState)
      requires Coupled() && Filed(state)
      modifies this`model, state`global
      ensures Coupled() && state.Value() == Scope(old(state.Value()))
      ensures model == old(model).(channels := old(model).channels[state.name := Scope(old(state.Value()))])
    {
      if state.global {
        state.global := false;
      }
      model := model.(channels := model.channels[state.name := state.Value()]);
    }

    method SetSeq(state: ChannelState, seqNo: int)
      requires Coupled() && Filed(state)
      modifies this`model, state`seqNo
      ensures Coupled()
      ensures model == old(model).(channels := old(model).channels[state.name := old(state.Value()).(seqNo := seqNo)])
    {
      state.seqNo := seqNo;
      model := model.(channels := model.channels[state.name := state.Value()]);
    }

    method SetDetached(state: ChannelState)
      requires Coupled() && Filed(state) && sidMap == map[]
      modifies this`model, state`sid, state`seqNo
      ensures Coupled()
      ensures model == old(model).(channels := old(model).channels[state.name := Detached(old(state.Value()))])
    {
      state.sid := None;
      state.seqNo := 0;
      model := model.(channels := model.channels[state.name := state.Value()]);
    }

    /** Records the SID in the state and in the table of SIDs. */
    method SetSid(state: ChannelState, sid: int)
      requires Coupled() && Filed(state)
      modifies this`model, this`sidMap, state`sid
      ensures Coupled() && state.sid == Some(sid)
      ensures model == old(model).(channels := old(model).channels[state.name := old(state.Value()).(sid := Some(sid))],
                                   sids := old(model).sids[sid := state.name])
    {
      state.sid := Some(sid);
      sidMap := sidMap[sid := state];
      model := model.(channels := model.channels[state.name := state.Value()], sids := model.sids[sid := state.name]);
    }

    method DropSid(sid: int)
      requires Coupled()
      modifies this`sidMap, this`model
      ensures Coupled() && model == old(model).(sids := old(model).sids - {sid})
    {
      sidMap := sidMap - {sid};
      model := model.(sids := model.sids - {sid});
    }

    method TakeInflight(id: int)
      requires Coupled()
      modifies this`pendingInit, this`model
      ensures Coupled() && model == old(model).(inflight := old(model).inflight - {id})
    {
      pendingInit := pendingInit - {id};
      model := model.(inflight := pendingInit);
    }

    method AskReconnect()
      requires Coupled()
      modifies this`forceReconnect, this`model
      ensures Coupled() && model == old(model).(forceReconnect := true)
    {
      forceReconnect := true;
      model := model.(forceReconnect := true);
    }

    // -------------------------------------------------------------------
    // Calls
    // -------------------------------------------------------------------

    method SubscribeChannel(ch: string, wanted: Option<Tickers>, snapshot: bool, wire: Wire) returns (status: Status)
      requires Coupled() && Ready(model, ch)
      modifies this
      ensures Coupled() && fresh(channels.Values - old(channels.Values))
      ensures (model, status) == SubscribeOne(old(model), ch, wanted, snapshot, wire)
    {
      hide Linked, Indexed;
      if ch in channels {
        return InvalidArgument;
      }
      var state := NewState(ch, wanted);
      Register(state);
      var ok := SendSubscribeTo(ch, wanted, snapshot, wire);
      hide SendSubscribe, Delivers, Ready;
      if !ok {
        ForgetChannel(ch);
        return SendFailed;
      }
      return Ok;
    }

    method UnsubscribeChannel(ch: string, wire: Wire) returns (status: Status)
      requires Coupled() && Ready(model, ch)
      modifies this
      ensures Coupled() && fresh(channels.Values - old(channels.Values))
      ensures (model, status) == UnsubscribeOne(old(model), ch, wire)
    {
      if ch !in channels {
        return Ok;
      }
      FiledAs(ch);
      hide Linked, Indexed;
      var state := channels[ch];
      if state.sid.Some? {
        var sid := state.sid.value;
        var ok := SendUnsubscribeFrom(sid, wire);
        if !ok {
          return SendFailed;
        }
        DropSid(sid);
      } else {
        DeletePendingInitForChannel(ch);
      }
      Unregister(ch);
      return Ok;
    }

    method AddMarketsTo(ch: string, tickers: Tickers, snapshot: bool, wire: Wire) returns (status: Status)
      requires Coupled() && Ready(model, ch)
      modifies this, channels.Values
      ensures Coupled() && fresh(channels.Values - old(channels.Values))
      ensures (model, status) == AddOne(old(model), ch, tickers, snapshot, wire)
    {
      var known := ch in channels;
      var state;
      hide AddKnown, Indexed;
      if known {
        FiledAs(ch);
        state := channels[ch];
        SetScoped(state);
      } else {
        state := new ChannelState(ch);
        Register(state);
      }
      status := AddToState(state, known, tickers, snapshot, wire);
    }

    /** The rest of AddMarkets, once the state is there and ticker-scoped. */
    method AddToState(state: ChannelState, known: bool, tickers: Tickers, snapshot: bool, wire: Wire)
      returns (status: Status)
      requires Coupled() && Filed(state)
      requires Ready(model, state.name) && (!known ==> state.sid.None? && !IsInflight(model, state.name))
      modifies this, state
      ensures Coupled() && (channels == old(channels) || channels == old(channels) - {state.name})
      ensures (model, status) == AddKnown(old(model), state.name, known, tickers, snapshot, wire)
    {
      var ch := state.name;
      FiledAs(ch);
      hide Linked, Forget;
      var newTickers := tickers - state.markets;
      if newTickers == {} {
        return Ok;
      }
      if state.sid.Some? {
        var ok := SendUpdateSub(state.sid.value, newTickers, AddMarkets, snapshot, wire);
        if !ok {
          return SendFailed;
        }
        SetMarkets(state, state.markets + newTickers);
        return Ok;
      }
      var pending := PendingInitForChannel(ch);
      if pending {
        SetPending(state, state.pendingMarkets + newTickers);
        return Ok;
      }
      var ok := SendSubscribeTo(ch, Some(newTickers), snapshot, wire);
      if !ok {
        if !known {
          ForgetChannel(ch);
        }
        return SendFailed;
      }
      SetMarkets(state, state.markets + newTickers);
      return Ok;
    }

    method RemoveMarketsFrom(ch: string, tickers: Tickers, wire: Wire) returns (status: Status)
      requires Coupled()
      modifies this, channels.Values
      ensures Coupled() && channels == old(channels)
      ensures (model, status) == RemoveOne(old(model), ch, tickers, wire)
    {
      if ch !in channels || channels[ch].sid.None? {
        return Ok;
      }
      FiledAs(ch);
      status := RemoveFromState(channels[ch], tickers, wire);
    }

    method RemoveFromState(state: ChannelState, tickers: Tickers, wire: Wire) returns (status: Status)
      requires Coupled() && Filed(state) && state.sid.Some?
      modifies this, state
      ensures Coupled() && channels == old(channels)
      ensures (model, status) == RemoveOne(old(model), state.name, tickers, wire)
    {
      FiledAs(state.name);
      var ok := AskRemoval(state, tickers, wire);
      hide Linked, SendUpdate, Delivers;
      if !ok {
        return SendFailed;
      }
      SetMarkets(state, state.markets - tickers);
      return Ok;
    }

    method AskRemoval(state: ChannelState, tickers: Tickers, wire: Wire) returns (ok: bool)
      requires Coupled() && Filed(state) && state.sid.Some?
      modifies this, state
      ensures Coupled() && channels == old(channels) && state.Value() == Scope(old(state.Value()))
      ensures var c, scoped := old(model), Scope(old(state.Value()));
              var d := c.(channels := c.channels[state.name := scoped]);
              ok == Delivers(d, wire) && model == SendUpdate(d, scoped.sid.value, tickers, DeleteMarkets, false, wire)
    {
      hide Linked, SendUpdate, Delivers;
      SetScoped(state);
      ok := SendUpdateSub(state.sid.value, tickers, DeleteMarkets, false, wire);
    }

    method GetSnapshotOf(ch: string, tickers: Tickers, wire: Wire) returns (status: Status)
      requires Coupled()
      modifies this
      ensures Coupled() && channels == old(channels)
      ensures (model, status) == SnapshotOne(old(model), ch, tickers, wire)
    {
      if ch !in channels || channels[ch].sid.None? {
        return Ok;
      }
      var ok := SendUpdateSub(channels[ch].sid.value, tickers, GetSnapshot, false, wire);
      if !ok {
        return SendFailed;
      }
      return Ok;
    }

    method RequestChannel(ch: string, r: Request, wire: Wire) returns (status: Status)
      requires Coupled() && Ready(model, ch)
      modifies this, channels.Values
      ensures Coupled() && fresh(channels.Values - old(channels.Values))
      ensures (model, status) == RequestOne(old(model), ch, r, wire)
    {
      match r {
        case SubscribeTo(wanted, snapshot) => status := SubscribeChannel(ch, wanted, snapshot, wire);
        case UnsubscribeFrom => status := UnsubscribeChannel(ch, wire);
        case Add(tickers, snapshot) => status := AddMarketsTo(ch, tickers, snapshot, wire);
        case Remove(tickers) => status := RemoveMarketsFrom(ch, tickers, wire);
        case Snapshot(tickers) => status := GetSnapshotOf(ch, tickers, wire);
      }
    }

    /** Subscribe, Unsubscribe, AddMarkets, RemoveMarkets and GetSnapshot share
        this loop over their channels. */
    method Perform(names: seq<string>, r: Request, wire: Wire) returns (status: Status)
      requires Valid()
      modifies this, channels.Values
      ensures Valid() && fresh(channels.Values - old(channels.Values))
      ensures (model, status) == Call(old(model), names, r, wire)
    {
      if BadArguments(names, r) {
        return InvalidArgument;
      }
      hide Linked, Indexed, RequestOne, RequestEach, Ready;
      ghost var start := model;
      for i := 0 to |names|
        invariant Valid() && fresh(channels.Values - old(channels.Values))
        invariant RequestEach(model, names[i..], r, wire) == RequestEach(start, names, r, wire)
      {
        NextChannel(model, names, i, r, wire);
        status := RequestChannel(names[i], r, wire);
        if !status.Ok? {
          return status;
        }
      }
      NextChannel(model, names, |names|, r, wire);
      return Ok;
    }

    // -------------------------------------------------------------------
    // Frames
    // -------------------------------------------------------------------

    method OnSubscribed(id: int, body: Option<int>, wire: Wire)
      requires Coupled()
      modifies this, channels.Values
      ensures Coupled() && channels == old(channels)
      ensures model == HandleSubscribed(old(model), id, body, wire)
    {
      if id !in pendingInit {
        return;
      }
      hide Linked, Flush;
      var ch := pendingInit[id];
      TakeInflight(id);
      if body.None? || ch !in channels {
        return;
      }
      FiledAs(ch);
      var state := channels[ch];
      PutTwice(model.channels, ch, state.Value().(sid := Some(body.value)), Bind(state.Value(), body.value));
      SetSid(state, body.value);
      FlushPending(state, body.value, wire);
    }

    /** The guard is read again after each send; it never holds twice. */
    method FlushPending(state: ChannelState, sid: int, wire: Wire)
      requires Coupled() && Filed(state) && state.sid == Some(sid)
      modifies this`msgID, this`forceReconnect, this`model, state`pendingMarkets
      ensures Coupled()
      ensures var c, ch := old(model), state.name;
              model == Flush(c.(channels := c.channels[ch := Bind(c.channels[ch], sid)]),
                             sid, old(state.pendingMarkets), wire)
    {
      FiledAs(state.name);
      hide Linked;
      var ch := state.name;
      ghost var queued := state.pendingMarkets;
      ghost var taken := model.(channels := model.channels[ch := Bind(model.channels[ch], sid)]);
      ghost var rounds := 0;
      while state.pendingMarkets != {}
        invariant Coupled() && 0 <= rounds <= 1
        invariant rounds == 0 ==> state.pendingMarkets == queued && model == old(model)
        invariant rounds == 1 ==> state.pendingMarkets == {} && queued != {} && model == Flush(taken, sid, queued, wire)
        decreases 1 - rounds
      {
        var tickers := state.pendingMarkets;
        SetPending(state, {});
        assert model == taken;
        var ok := SendUpdateSub(sid, tickers, AddMarkets, false, wire);
        rounds := rounds + 1;
        if !ok {
          AskReconnect();
          break;
        }
      }
      assert rounds == 0 ==> model.channels == taken.channels;
    }

    /** Gap detection and the new sequence number, for a SID in the table. */
    method AdvanceSeq(sid: int, seqNo: int)
      requires Coupled() && sid in sidMap
      modifies this`forceReconnect, this`model, channels.Values
      ensures Coupled() && model == Advance(old(model), sid, seqNo)
    {
      var state := sidMap[sid];
      ghost var ch := model.sids[sid];
      if state.seqNo != 0 && state.seqNo + 1 != seqNo {
        forceReconnect := true;
      }
      model := model.(forceReconnect := forceReconnect);
      SetSeq(state, seqNo);
    }

    method OnAcknowledged(sid: int, seqNo: int, tickers: Tickers, ghost wire: Wire)
      requires Coupled()
      modifies this`forceReconnect, this`model, channels.Values
      ensures Coupled() && model == HandleFrame(old(model), Acknowledged(sid, seqNo, tickers), wire)
    {
      if sid !in sidMap {
        return;
      }
      var state := sidMap[sid];
      FiledAs(model.sids[sid]);
      AdvanceSeq(sid, seqNo);
      hide Linked;
      FiledAs(state.name);
      PutSame(model.channels, state.name);
      if tickers != {} {
        SetMarkets(state, tickers);
      }
    }

    /** One parsed frame; returns whether its raw bytes go to the message feed. */
    method HandleIncoming(frame: Frame, wire: Wire) returns (dispatch: bool)
      requires Coupled()
      modifies this, channels.Values
      ensures Coupled() && channels == old(channels)
      ensures model == HandleFrame(old(model), frame, wire)
      ensures dispatch <==> frame.Data? && Accepted(old(model), Arrives(frame)) != []
      ensures dispatch <==> frame.Data? && frame.known && frame.sid in old(model).sids
    {
      dispatch := false;
      match frame {
        case Subscribed(id, body) =>
          OnSubscribed(id, body, wire);
        case Acknowledged(sid, seqNo, tickers) =>
          OnAcknowledged(sid, seqNo, tickers, wire);
        case Unsubscribed(sid) =>
          DropSid(sid);
        case Data(sid, seqNo, known) =>
          if known && sid in sidMap {
            AdvanceSeq(sid, seqNo);
            dispatch := true;
          }
        case Ignored =>
      }
    }

    // -------------------------------------------------------------------
    // Connection
    // -------------------------------------------------------------------

    method OnConnectionLoss()
      requires Coupled()
      modifies this, channels.Values
      ensures Coupled() && channels == old(channels)
      ensures model == HandleConnectionLoss(old(model))
    {
      ghost var before := model;
      sidMap, pendingInit := map[], map[];
      model := model.(sids := map[], inflight := map[]);
      var rest := channels.Keys;
      assert Coupled();
      DetachNone(before.channels, rest);
      hide Linked, DetachExcept;
      while rest != {}
        invariant Coupled() && channels == old(channels) && sidMap == map[] && rest <= channels.Keys
        invariant model == before.(sids := map[], inflight := map[], channels := DetachExcept(before.channels, rest))
        decreases rest
      {
        var ch :| ch in rest;
        FiledAs(ch);
        DetachOne(before.channels, rest, ch);
        SetDetached(channels[ch]);
        rest := rest - {ch};
      }
      DetachAll(before.channels);
      Disconnect();
    }

    method Disconnect()
      requires Coupled()
      modifies this`connected, this`model
      ensures Coupled() && model == old(model).(connected := false)
    {
      connected := false;
      model := model.(connected := false);
    }

    method ClearReconnect()
      requires Coupled()
      modifies this`forceReconnect, this`model
      ensures Coupled() && model == old(model).(forceReconnect := false) && channels == old(channels)
    {
      forceReconnect := false;
      model := model.(forceReconnect := false);
    }

    method OnConnect()
      requires Coupled()
      modifies this`connected, this`model
      ensures Coupled() && model == Connect(old(model))
    {
      connected := true;
      model := model.(connected := true);
    }

    method Recover(order: seq<string>, wire: Wire) returns (ok: bool)
      requires Coupled() && forall ch :: ch in order ==> ch in channels
      modifies this`msgID, this`pendingInit, this`model
      ensures Coupled() && (model, ok) == RecoverSubscriptions(old(model), order, wire)
    {
      ghost var start := model;
      for i := 0 to |order|
        invariant Coupled() && model.channels == start.channels
        invariant RecoverSubscriptions(model, order[i..], wire) == RecoverSubscriptions(start, order, wire)
      {
        assert order[i] in order;
        assert order[i..][0] == order[i] && order[i..][1..] == order[i + 1..];
        var state := channels[order[i]];
        if !state.global && state.markets == {} {
          continue;
        }
        var wanted := if state.global then None else Some(state.markets);
        var sent := SendSubscribeTo(state.name, wanted, false, wire);
        if !sent {
          return false;
        }
      }
      return true;
    }

    /** From a lost connection to the next read, as the listen loop goes: only a
        dial that succeeds at once is followed by a recovery. */
    method Reconnect(firstDial: bool, order: seq<string>, wire: Wire)
      requires Valid() && Enumerates(order, model)
      modifies this, channels.Values
      ensures Valid() && channels == old(channels)
      ensures model == Resume(old(model), firstDial, order, wire)
    {
      ResumeKeepsIndex(model, firstDial, order, wire);
      hide Linked, Indexed, HandleConnectionLoss, RecoverSubscriptions;
      OnConnectionLoss();
      OnConnect();
      if firstDial {
        var ok := Recover(order, wire);
      }
    }

    /** One frame and the test of the reconnect flag, or one call. */
    method TakeTurn(turn: Turn, ghost used: set<int>, wire: Wire) returns (ends: bool)
      requires Valid() && model.sids.Keys <= used && FairTurn(model, used, turn)
      modifies this, channels.Values
      ensures Valid() && fresh(channels.Values - old(channels.Values))
      ensures ends == Ends(old(model), turn, wire)
      ensures model == if ends then Take(old(model), turn, wire).(forceReconnect := false)
                       else Take(old(model), turn, wire)
    {
      TurnKeepsUse(model, used, turn, wire);
      hide Linked, Indexed, FairTurn, HandleFrame, Call, Accepted;
      match turn {
        case Arrives(frame) =>
          var dispatch := HandleIncoming(frame, wire);
          if forceReconnect {
            ClearReconnect();
            return true;
          }
        case Between(names, request) =>
          var status := Perform(names, request, wire);
      }
      return false;
    }

    /** Reads until a frame asks for a reconnect or reading fails, which is when
        the turns run out; application calls happen between frames. */
    method Listen(turns: seq<Turn>, ghost used: set<int>, wire: Wire) returns (gap: bool)
      requires Valid() && model.sids.Keys <= used && FairTurns(model, used, turns, wire)
      modifies this, channels.Values
      ensures Valid() && fresh(channels.Values - old(channels.Values))
      ensures (model, gap) == ReadLoop(old(model), turns, wire)
    {
      hide Indexed, Linked, FairTurns, FairTurn, Take, Ends, UsedAfter;
      ghost var start, inUse := model, used;
      for i := 0 to |turns|
        invariant Valid() && fresh(channels.Values - old(channels.Values))
        invariant model.sids.Keys <= inUse && FairTurns(model, inUse, turns[i..], wire)
        invariant ReadLoop(model, turns[i..], wire) == ReadLoop(start, turns, wire)
      {
        NextTurn(model, inUse, turns, i, wire);
        var ends := TakeTurn(turns[i], inUse, wire);
        if ends {
          return true;
        }
        inUse := UsedAfter(inUse, turns[i]);
      }
      assert turns[|turns|..] == [] && ReadLoop(model, [], wire) == (model, false);
      return false;
    }
  }

  /** The loop's turn `i`. */
  lemma {:induction false} NextTurn(c: Client, used: set<int>, turns: seq<Turn>, i: nat, wire: Wire)
    requires Indexed(c) && c.sids.Keys <= used && i < |turns| && FairTurns(c, used, turns[i..], wire)
    ensures FairTurn(c, used, turns[i])
    ensures var d, rest := Take(c, turns[i], wire), turns[i + 1..];
      && d.sids.Keys <= UsedAfter(used, turns[i]) && FairTurns(d, UsedAfter(used, turns[i]), rest, wire)
      && ReadLoop(c, turns[i..], wire)
         == if Ends(c, turns[i], wire) then (d.(forceReconnect := false), true) else ReadLoop(d, rest, wire)
  {
    hide Indexed, Take, UsedAfter, FairTurn, Ends;
    assert turns[i..][0] == turns[i] && turns[i..][1..] == turns[i + 1..];
    TurnKeepsUse(c, used, turns[i], wire);
  }

  lemma {:induction false} TurnKeepsUse(c: Client, used: set<int>, turn: Turn, wire: Wire)
    requires Indexed(c) && c.sids.Keys <= used && FairTurn(c, used, turn)
    ensures Indexed(Take(c, turn, wire)) && Indexed(Take(c, turn, wire).(forceReconnect := false))
    ensures Take(c, turn, wire).sids.Keys <= UsedAfter(used, turn)
  {
    match turn {
      case Arrives(frame) =>
        FrameKeepsIndex(c, frame, wire);
      case Between(names, request) =>
        RequestsKeepIndex(c, names, request, wire);
        CallsAddNoSids(c, names, request, wire);
    }
  }

  lemma {:induction false} RequestAddsNoSids(c: Client, ch: string, r: Request, wire: Wire)
    ensures RequestOne(c, ch, r, wire).0.sids.Keys <= c.sids.Keys
  {
    match r
    case SubscribeTo(_, _) =>
    case UnsubscribeFrom =>
    case Add(_, _) =>
    case Remove(_) =>
    case Snapshot(_) =>
  }

  lemma {:induction false} CallsAddNoSids(c: Client, names: seq<string>, r: Request, wire: Wire)
    ensures RequestEach(c, names, r, wire).0.sids.Keys <= c.sids.Keys
    decreases |names|
  {
    if names != [] {
      hide RequestOne;
      RequestAddsNoSids(c, names[0], r, wire);
      CallsAddNoSids(RequestOne(c, names[0], r, wire).0, names[1..], r, wire);
    }
  }
}
