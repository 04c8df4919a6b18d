/** What the application's calls on the WebSocket client mean to their caller
    (ws_client.go): what is wanted afterwards, what is sent, what a failed call
    undoes, and what one call undoes of another. */
module WsCalls {
  import opened Basics
  import opened WsModel
  import opened WsIndex

  /** The tickers the client wants on a channel: listed or waiting for the SID. */
  function Wanted(c: Client, ch: string): Tickers {
    if ch in c.channels then c.channels[ch].markets + c.channels[ch].pending else {}
  }

  /** The commands written or attempted since `c`. */
  function SentSince(c: Client, d: Client): seq<Sent> {
    if c.log <= d.log then d.log[|c.log|..] else []
  }

  /** The same tables; message ids and the log may have moved on. */
  predicate SameTables(c: Client, d: Client) {
    d.channels == c.channels && d.sids == c.sids && d.inflight == c.inflight
  }

  /** Everything about other channels is as it was. */
  ghost predicate SparesOthers(c: Client, d: Client, ch: string) {
    && (forall x :: x != ch ==> (x in d.channels <==> x in c.channels))
    && (forall x :: x != ch && x in c.channels ==> d.channels[x] == c.channels[x])
    && (forall id :: id in c.inflight && c.inflight[id] != ch ==> id in d.inflight && d.inflight[id] == c.inflight[id])
    && (forall s :: s in c.sids && c.sids[s] != ch ==> s in d.sids && d.sids[s] == c.sids[s])
  }

  lemma {:induction false} Since(c: Client, d: Client, more: seq<Sent>)
    requires d.log == c.log + more
    ensures SentSince(c, d) == more
  {
  }

  /** AddMarkets: a call that succeeds adds its tickers to those wanted, a call
      that fails adds none; and it sends only tickers not listed yet, in at most
      one command: an update when the SID is known, otherwise a subscribe unless
      one is in flight. */
  lemma {:induction false} AddOutcome(c: Client, ch: string, tickers: Tickers, snapshot: bool, wire: Wire)
    requires Indexed(c)
    ensures var (d, status) := RequestOne(c, ch, Add(tickers, snapshot), wire);
            var absent, id := tickers - if ch in c.channels then c.channels[ch].markets else {}, c.msgID + 1;
            var ok := c.connected && wire(id);
      && status == (if ok || SentSince(c, d) == [] then Ok else SendFailed)
      && (status.Ok? ==> Wanted(d, ch) == Wanted(c, ch) + tickers)
      && (status.Ok? && SentSince(c, d) == [] && absent != {} ==>
            ch in c.channels && ch in d.channels && d.channels[ch].pending == c.channels[ch].pending + absent)
      && (status.Ok? && SentSince(c, d) != [] ==>
            && ch in d.channels
            && d.channels[ch].markets == absent + if ch in c.channels then c.channels[ch].markets else {})
      && (status.SendFailed? ==> Wanted(d, ch) == Wanted(c, ch) && (ch in d.channels <==> ch in c.channels))
      && (ch in d.channels ==> !d.channels[ch].global)
      && SentSince(c, d)
         == if absent == {} then []
            else if ch in c.channels && c.channels[ch].sid.Some?
            then [Sent(Update(id, c.channels[ch].sid.value, absent, AddMarkets, snapshot), ok)]
            else if exists i :: i in c.inflight && c.inflight[i] == ch then []
            else [Sent(Subscribe(id, ch, Some(absent), snapshot), ok)]
  {
    var state := if ch in c.channels then Scope(c.channels[ch]) else NewChannel({}, false);
    var e := c.(channels := c.channels[ch := state]);
    assert IsInflight(e, ch) <==> IsInflight(c, ch);
    assert ch !in c.channels ==> !IsInflight(c, ch);
    hide Indexed, IsInflight;
    var d := AddOne(c, ch, tickers, snapshot, wire).0;
    AddKnownOutcome(e, ch, ch in c.channels, tickers, snapshot, wire);
    assert SentSince(c, d) == SentSince(e, d);
  }

  lemma {:induction false} AddKnownOutcome(
    c: Client, ch: string, known: bool, tickers: Tickers, snapshot: bool, wire: Wire)
    requires ch in c.channels && (known || c.channels[ch] == NewChannel({}, false))
    requires c.channels[ch].global == false
    ensures var (d, status) := AddKnown(c, ch, known, tickers, snapshot, wire);
            var state, id := c.channels[ch], c.msgID + 1;
            var absent := tickers - state.markets;
      && status == (if Delivers(c, wire) || SentSince(c, d) == [] then Ok else SendFailed)
      && (status.Ok? ==> Wanted(d, ch) == Wanted(c, ch) + tickers)
      && (status.Ok? && SentSince(c, d) == [] && absent != {} ==>
            ch in d.channels && d.channels[ch].pending == c.channels[ch].pending + absent && IsInflight(c, ch))
      && (status.Ok? && SentSince(c, d) != [] ==>
            ch in d.channels && d.channels[ch].markets == absent + state.markets)
      && (status.SendFailed? ==> Wanted(d, ch) == Wanted(c, ch) && (ch in d.channels <==> known || state.sid.Some?))
      && (ch in d.channels ==> !d.channels[ch].global)
      && SentSince(c, d)
         == if absent == {} then []
            else if state.sid.Some?
            then [Sent(Update(id, state.sid.value, absent, AddMarkets, snapshot), Delivers(c, wire))]
            else if IsInflight(c, ch) then []
            else [Sent(Subscribe(id, ch, Some(absent), snapshot), Delivers(c, wire))]
  {
    hide IsInflight, Delivers, SentSince, DropInflight;
    var d, state, id := AddKnown(c, ch, known, tickers, snapshot, wire).0, c.channels[ch], c.msgID + 1;
    var absent := tickers - state.markets;
    assert Wanted(c, ch) + absent == Wanted(c, ch) + tickers;
    if absent == {} || (state.sid.None? && IsInflight(c, ch)) {
      assert c.log + [] == c.log;
      Since(c, d, []);
    } else if state.sid.Some? {
      Since(c, d, [Sent(Update(id, state.sid.value, absent, AddMarkets, snapshot), Delivers(c, wire))]);
    } else {
      Since(c, d, [Sent(Subscribe(id, ch, Some(absent), snapshot), Delivers(c, wire))]);
    }
  }

  /** RemoveMarkets: without a SID nothing happens; with one, exactly the tickers
      given are asked for and, if that was written, no longer listed. */
  lemma {:induction false} RemoveOutcome(c: Client, ch: string, tickers: Tickers, wire: Wire)
    ensures var (d, status) := RequestOne(c, ch, Remove(tickers), wire);
            if ch !in c.channels || c.channels[ch].sid.None? then d == c && status.Ok?
            else
              && status == (if c.connected && wire(c.msgID + 1) then Ok else SendFailed)
              && d.channels
                 == c.channels[ch := c.channels[ch].(
                      global := false,
                      markets := c.channels[ch].markets - if status.Ok? then tickers else {})]
              && SentSince(c, d)
                 == [Sent(Update(c.msgID + 1, c.channels[ch].sid.value, tickers, DeleteMarkets, false), status.Ok?)]
  {
    var d := RemoveOne(c, ch, tickers, wire).0;
    if ch in c.channels && c.channels[ch].sid.Some? {
      RemoveSends(c, ch, tickers, wire);
      assert c.channels[ch].markets - {} == c.channels[ch].markets;
      Since(c, d, [d.log[|c.log|]]);
    }
  }

  /** GetSnapshot changes nothing: without a SID it does nothing, with one it asks for
      exactly its tickers. */
  lemma {:induction false} SnapshotOutcome(c: Client, ch: string, tickers: Tickers, wire: Wire)
    ensures var (d, status) := RequestOne(c, ch, Request.Snapshot(tickers), wire);
      && SameTables(c, d)
      && if ch !in c.channels || c.channels[ch].sid.None? then d == c && status.Ok?
         else
           var ok := c.connected && wire(c.msgID + 1);
           && status == (if ok then Ok else SendFailed)
           && SentSince(c, d) == [Sent(Update(c.msgID + 1, c.channels[ch].sid.value, tickers, GetSnapshot, false), ok)]
  {
    var d := SnapshotOne(c, ch, tickers, wire).0;
    if ch in c.channels && c.channels[ch].sid.Some? {
      Since(c, d, [d.log[|c.log|]]);
    }
  }

  /** Unsubscribe: an unknown channel is fine; one without SID is dropped with its
      subscribe in flight, and nothing is sent; one with a SID is dropped, with that
      SID, when the command for it was written, and kept otherwise. */
  lemma {:induction false} UnsubscribeOutcome(c: Client, ch: string, wire: Wire)
    ensures var (d, status) := RequestOne(c, ch, UnsubscribeFrom, wire);
      if ch !in c.channels then d == c && status.Ok?
      else if c.channels[ch].sid.None? then
        && status.Ok? && d.channels == c.channels - {ch} && d.sids == c.sids && d.log == c.log
        && (forall id :: id in d.inflight <==> id in c.inflight && c.inflight[id] != ch)
      else
        var sid, ok := c.channels[ch].sid.value, c.connected && wire(c.msgID + 1);
        && status == (if ok then Ok else SendFailed)
        && SentSince(c, d) == [Sent(Unsubscribe(c.msgID + 1, sid), ok)]
        && d.inflight == c.inflight
        && (if ok then d.channels == c.channels - {ch} && d.sids == c.sids - {sid}
            else d.channels == c.channels && d.sids == c.sids)
  {
    var d := UnsubscribeOne(c, ch, wire).0;
    if ch in c.channels && c.channels[ch].sid.Some? {
      Since(c, d, [d.log[|c.log|]]);
    }
  }

  /** Arguments are refused, before any state is looked at, exactly when there are no
      channels, or the tickers of a call that needs some are empty (nil tickers are
      a global Subscribe). */
  lemma {:induction false} ArgumentsMeaning(c: Client, names: seq<string>, r: Request, wire: Wire)
    ensures var refused := || names == []
                           || (r.SubscribeTo? && r.wanted.Some? && r.wanted.value == {})
                           || ((r.Add? || r.Remove? || r.Snapshot?) && r.tickers == {});
            Call(c, names, r, wire) == if refused then (c, InvalidArgument) else RequestEach(c, names, r, wire)
  {
  }

  /** A call does its channels one after the other, as far as they succeed. */
  lemma {:induction false} CallsCompose(c: Client, ch: string, rest: seq<string>, r: Request, wire: Wire)
    ensures RequestEach(c, [], r, wire) == (c, Ok)
    ensures var (d, status) := RequestOne(c, ch, r, wire);
            RequestEach(c, [ch] + rest, r, wire) == if status.Ok? then RequestEach(d, rest, r, wire) else (d, status)
  {
    hide RequestOne;
    assert ([ch] + rest)[1..] == rest;
  }

  /** Removing what was just added gives back the markets there were. */
  lemma {:induction false} RemoveUndoesAdd(c: Client, ch: string, tickers: Tickers, snapshot: bool, wire: Wire)
    requires Indexed(c) && ch in c.channels && c.channels[ch].sid.Some? && tickers !! c.channels[ch].markets
    requires var d := AddOne(c, ch, tickers, snapshot, wire).0; Delivers(c, wire) && Delivers(d, wire)
    ensures var e := RemoveOne(AddOne(c, ch, tickers, snapshot, wire).0, ch, tickers, wire).0;
            ch in e.channels && e.channels[ch] == Scope(c.channels[ch])
  {
    var d := AddOne(c, ch, tickers, snapshot, wire).0;
    var state := Scope(c.channels[ch]);
    assert tickers - state.markets == tickers;
    assert d.channels[ch] == AddLocally(state, tickers);
    assert (state.markets + tickers) - tickers == state.markets;
  }

  /** A Subscribe that fails, because the channel is taken or the write failed,
      leaves the tables as they were; one that succeeds adds the channel with
      what was asked, and one subscribe for it in flight. */
  lemma {:induction false} SubscribeOutcome(c: Client, ch: string, wanted: Option<Tickers>, snapshot: bool, wire: Wire)
    requires Indexed(c)
    ensures var (d, status) := RequestOne(c, ch, SubscribeTo(wanted, snapshot), wire);
            var id, ok := c.msgID + 1, c.connected && wire(c.msgID + 1);
      && status == (if ch in c.channels then InvalidArgument else if ok then Ok else SendFailed)
      && SentSince(c, d) == (if ch in c.channels then [] else [Sent(Subscribe(id, ch, wanted, snapshot), ok)])
      && (!status.Ok? ==> SameTables(c, d))
      && (status.Ok? ==>
            && d.sids == c.sids && d.inflight == c.inflight[id := ch] && id !in c.inflight
            && d.channels
               == c.channels[ch := Channel(if wanted.Some? then wanted.value else {}, {}, None, 0, wanted.None?)])
  {
    var (d, status) := SubscribeOne(c, ch, wanted, snapshot, wire);
    if ch !in c.channels {
      Since(c, d, [Sent(Subscribe(c.msgID + 1, ch, wanted, snapshot), Delivers(c, wire))]);
    } else {
      assert c.log + [] == c.log;
      Since(c, d, []);
    }
    if status.SendFailed? {
      DroppedAgain(c.inflight, c.msgID + 1, ch);
      PutAway(c.channels, ch, NewChannel(if wanted.Some? then wanted.value else {}, wanted.None?));
    }
  }

  lemma {:induction false} DroppedAgain(inflight: map<int, string>, id: int, ch: string)
    requires id !in inflight && forall i :: i in inflight ==> inflight[i] != ch
    ensures DropInflight(inflight[id := ch], ch) == inflight
  {
    forall i ensures i in DropInflight(inflight[id := ch], ch) <==> i in inflight {
    }
  }

  /** Unsubscribe undoes Subscribe, whether the reply has come by then or not. */
  lemma {:induction false} UnsubscribeUndoesSubscribe(
    c: Client, ch: string, wanted: Option<Tickers>, snapshot: bool, reply: Option<int>, wire: Wire)
    requires Indexed(c) && SubscribeOne(c, ch, wanted, snapshot, wire).1.Ok?
    requires reply.Some? ==> reply.value !in c.sids && wire(c.msgID + 2)
    ensures var d := SubscribeOne(c, ch, wanted, snapshot, wire).0;
            var e := if reply.Some? then HandleSubscribed(d, c.msgID + 1, reply, wire) else d;
            var (f, status) := UnsubscribeOne(e, ch, wire);
            status.Ok? && SameTables(c, f)
  {
    var id, state := c.msgID + 1, NewChannel(if wanted.Some? then wanted.value else {}, wanted.None?);
    SubscribeOutcome(c, ch, wanted, snapshot, wire);
    var d := SubscribeOne(c, ch, wanted, snapshot, wire).0;
    assert forall i :: i in c.inflight ==> c.inflight[i] != ch;
    hide Indexed;
    if reply.None? {
      DroppedAgain(c.inflight, id, ch);
      PutAway(c.channels, ch, state);
    } else {
      AnsweredUnsubscribe(c, d, ch, state, reply.value, wire);
    }
  }

  lemma {:induction false} AnsweredUnsubscribe(c: Client, d: Client, ch: string, state: Channel, sid: int, wire: Wire)
    requires ch !in c.channels && sid !in c.sids && c.msgID + 1 !in c.inflight && state.pending == {}
    requires d.connected && d.msgID == c.msgID + 1 && wire(d.msgID + 1) && d.sids == c.sids
    requires d.inflight == c.inflight[d.msgID := ch] && d.channels == c.channels[ch := state]
    ensures var (f, status) := UnsubscribeOne(HandleSubscribed(d, d.msgID, Some(sid), wire), ch, wire);
            status.Ok? && SameTables(c, f)
  {
    var e := HandleSubscribed(d, d.msgID, Some(sid), wire);
    var f := UnsubscribeOne(e, ch, wire).0;
    assert e.channels == c.channels[ch := Bind(state, sid)];
    PutAway(c.channels, ch, Bind(state, sid));
    forall i ensures i in f.inflight <==> i in c.inflight {
    }
    forall s ensures s in f.sids <==> s in c.sids {
    }
  }

  lemma {:induction false} AddSparesOthers(c: Client, ch: string, tickers: Tickers, snapshot: bool, wire: Wire)
    requires Indexed(c)
    ensures SparesOthers(c, AddOne(c, ch, tickers, snapshot, wire).0, ch)
  {
    assert forall id :: id in c.inflight ==> id <= c.msgID;
    hide Indexed, AddKnown, SparesOthers;
    var state := if ch in c.channels then Scope(c.channels[ch]) else NewChannel({}, false);
    AddKnownSparesOthers(c.(channels := c.channels[ch := state]), ch, ch in c.channels, tickers, snapshot, wire);
    SparesThroughPut(c, state, AddOne(c, ch, tickers, snapshot, wire).0, ch);
  }

  lemma {:induction false} SparesThroughPut(c: Client, state: Channel, d: Client, ch: string)
    requires SparesOthers(c.(channels := c.channels[ch := state]), d, ch)
    ensures SparesOthers(c, d, ch)
  {
  }

  lemma {:induction false} AddKnownSparesOthers(
    c: Client, ch: string, known: bool, tickers: Tickers, snapshot: bool, wire: Wire)
    requires ch in c.channels && forall id :: id in c.inflight ==> id <= c.msgID
    ensures SparesOthers(c, AddKnown(c, ch, known, tickers, snapshot, wire).0, ch)
  {
    hide IsInflight, Delivers, AddLocally, Queue, SparesOthers, Forget;
    var (d, status) := AddKnown(c, ch, known, tickers, snapshot, wire);
    var absent := tickers - c.channels[ch].markets;
    var state, inflight := c.channels[ch], c.channels[ch].sid.None? && IsInflight(c, ch);
    PutSame(c.channels, ch);
    if absent != {} && !inflight && status.Ok? {
      PutSparesOthers(c, d, ch, AddLocally(state, absent));
    } else if absent != {} && inflight {
      PutSparesOthers(c, d, ch, Queue(state, absent));
    } else if absent == {} || state.sid.Some? || known {
      PutSparesOthers(c, d, ch, state);
    } else {
      SubscribeSendSparesOthers(c, ch, Some(absent), snapshot, wire);
    }
  }

  lemma {:induction false} PutSparesOthers(c: Client, d: Client, ch: string, state: Channel)
    requires d.sids == c.sids && (d.inflight == c.inflight || d.inflight == c.inflight[c.msgID + 1 := ch])
    requires forall id :: id in c.inflight ==> id <= c.msgID
    requires d.channels == c.channels[ch := state]
    ensures SparesOthers(c, d, ch)
  {
  }

  lemma {:induction false} SubscribeSendSparesOthers(
    c: Client, ch: string, wanted: Option<Tickers>, snapshot: bool, wire: Wire)
    requires forall id :: id in c.inflight ==> id <= c.msgID
    ensures SparesOthers(c, Forget(SendSubscribe(c, ch, wanted, snapshot, wire), ch), ch)
  {
  }

  lemma {:induction false} UnsubscribeSparesOthers(c: Client, ch: string, wire: Wire)
    requires Indexed(c)
    ensures SparesOthers(c, UnsubscribeOne(c, ch, wire).0, ch)
  {
    hide Delivers;
  }

  lemma {:induction false} SubscribeSparesOthers(
    c: Client, ch: string, wanted: Option<Tickers>, snapshot: bool, wire: Wire)
    requires Indexed(c)
    ensures SparesOthers(c, SubscribeOne(c, ch, wanted, snapshot, wire).0, ch)
  {
    SubscribeOutcome(c, ch, wanted, snapshot, wire);
    hide Indexed, SubscribeOne;
  }

  /** A call on one channel changes nothing of any other. */
  lemma {:induction false} RequestSparesOthers(c: Client, ch: string, r: Request, wire: Wire)
    requires Indexed(c)
    ensures SparesOthers(c, RequestOne(c, ch, r, wire).0, ch)
  {
    hide Indexed, SubscribeOne, UnsubscribeOne, AddOne;
    match r
    case SubscribeTo(wanted, snapshot) => SubscribeSparesOthers(c, ch, wanted, snapshot, wire);
    case UnsubscribeFrom => UnsubscribeSparesOthers(c, ch, wire);
    case Add(tickers, snapshot) => AddSparesOthers(c, ch, tickers, snapshot, wire);
    case Remove(_) =>
    case Snapshot(_) =>
  }

  /** A failing call stops at the first channel that fails; what it did for the
      channels before stands. */
  lemma {:induction false} CallStopsAtFailure(c: Client, names: seq<string>, r: Request, wire: Wire) returns (i: nat)
    requires !RequestEach(c, names, r, wire).1.Ok?
    ensures i < |names| && RequestEach(c, names[..i], r, wire).1.Ok?
    ensures RequestEach(c, names, r, wire) == RequestOne(RequestEach(c, names[..i], r, wire).0, names[i], r, wire)
    decreases |names|
  {
    hide RequestOne;
    var (d, status) := RequestOne(c, names[0], r, wire);
    if status.Ok? {
      var j := CallStopsAtFailure(d, names[1..], r, wire);
      i := j + 1;
      assert names[..i][1..] == names[1..][..j] && names[..i][0] == names[0];
    } else {
      i := 0;
    }
  }
}
