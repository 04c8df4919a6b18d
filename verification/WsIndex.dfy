/** Agreement of the client's three tables in every reachable state, and what a
    recovery after a lost connection sends and restores. */
module WsIndex {
  import opened Basics
  import opened WsModel

  /** The SID table is exactly the inverse of the SIDs of the channels. */
  ghost predicate SidsAreInverse(c: Client) {
    && (forall s :: s in c.sids ==> c.sids[s] in c.channels && c.channels[c.sids[s]].sid == Some(s))
    && (forall ch :: ch in c.channels && c.channels[ch].sid.Some? ==>
          c.channels[ch].sid.value in c.sids && c.sids[c.channels[ch].sid.value] == ch)
  }

  /** At most one subscribe in flight per channel, none for a channel that has
      its SID, and every id was issued. */
  ghost predicate InflightIsSingle(c: Client) {
    && (forall id :: id in c.inflight ==>
          id <= c.msgID && c.inflight[id] in c.channels && c.channels[c.inflight[id]].sid.None?)
    && (forall i, j :: i in c.inflight && j in c.inflight && c.inflight[i] == c.inflight[j] ==> i == j)
  }

  /** Tickers wait only while the SID is unknown. */
  ghost predicate QueuesAwaitSid(c: Client) {
    forall ch :: ch in c.channels && c.channels[ch].pending != {} ==> c.channels[ch].sid.None?
  }

  ghost predicate Indexed(c: Client) {
    SidsAreInverse(c) && InflightIsSingle(c) && QueuesAwaitSid(c)
  }

  /** Ids are issued one by one: the log holds 1, 2, ... up to the last one. */
  ghost predicate Numbered(c: Client) {
    |c.log| == c.msgID && forall i :: 0 <= i < |c.log| ==> c.log[i].command.id == i + 1
  }

  /** Replacing or adding a channel without touching its SID. */
  lemma {:induction false} PutKeepsIndex(c: Client, ch: string, state: Channel)
    requires Indexed(c) && state.sid == (if ch in c.channels then c.channels[ch].sid else None)
    requires state.pending != {} ==> state.sid.None?
    ensures Indexed(c.(channels := c.channels[ch := state]))
  {
  }

  lemma {:induction false} SendSubscribeKeepsIndex(
    c: Client, ch: string, wanted: Option<Tickers>, snapshot: bool, wire: Wire)
    requires Indexed(c) && ch in c.channels && c.channels[ch].sid.None? && !IsInflight(c, ch)
    ensures Indexed(SendSubscribe(c, ch, wanted, snapshot, wire))
  {
    var d := SendSubscribe(c, ch, wanted, snapshot, wire);
    forall i, j | i in d.inflight && j in d.inflight && d.inflight[i] == d.inflight[j] ensures i == j {
      if i in c.inflight {
        assert c.inflight[i] in c.inflight.Values;
      }
      if j in c.inflight {
        assert c.inflight[j] in c.inflight.Values;
      }
    }
  }

  lemma {:induction false} ForgetKeepsIndex(c: Client, ch: string)
    requires Indexed(c) && ch in c.channels && c.channels[ch].sid.None?
    ensures Indexed(Forget(c, ch))
  {
  }

  lemma {:induction false} SubscribeKeepsIndex(
    c: Client, ch: string, wanted: Option<Tickers>, snapshot: bool, wire: Wire)
    requires Indexed(c)
    ensures Indexed(SubscribeOne(c, ch, wanted, snapshot, wire).0)
  {
    if ch !in c.channels {
      var state := NewChannel(if wanted.Some? then wanted.value else {}, wanted.None?);
      var d := c.(channels := c.channels[ch := state]);
      PutKeepsIndex(c, ch, state);
      assert forall id :: id in c.inflight ==> c.inflight[id] != ch;
      SendSubscribeKeepsIndex(d, ch, wanted, snapshot, wire);
      ForgetKeepsIndex(SendSubscribe(d, ch, wanted, snapshot, wire), ch);
    }
  }

  lemma {:induction false} UnsubscribeKeepsIndex(c: Client, ch: string, wire: Wire)
    requires Indexed(c)
    ensures Indexed(UnsubscribeOne(c, ch, wire).0)
  {
  }

  lemma {:induction false} AddKeepsIndex(c: Client, ch: string, tickers: Tickers, snapshot: bool, wire: Wire)
    requires Indexed(c)
    ensures Indexed(AddOne(c, ch, tickers, snapshot, wire).0)
  {
    var state := if ch in c.channels then Scope(c.channels[ch]) else NewChannel({}, false);
    var d := c.(channels := c.channels[ch := state]);
    var absent := tickers - state.markets;
    PutKeepsIndex(c, ch, state);
    if absent != {} {
      if state.sid.Some? {
        var e := SendUpdate(d, state.sid.value, absent, AddMarkets, snapshot, wire);
        assert Indexed(e);
        PutKeepsIndex(e, ch, AddLocally(state, absent));
      } else if IsInflight(c, ch) {
        PutKeepsIndex(d, ch, Queue(state, absent));
      } else {
        SendSubscribeKeepsIndex(d, ch, Some(absent), snapshot, wire);
        var e := SendSubscribe(d, ch, Some(absent), snapshot, wire);
        PutKeepsIndex(e, ch, AddLocally(state, absent));
        ForgetKeepsIndex(e, ch);
      }
    }
  }

  lemma {:induction false} RequestsKeepIndex(c: Client, channels: seq<string>, r: Request, wire: Wire)
    requires Indexed(c)
    ensures Indexed(RequestEach(c, channels, r, wire).0)
    decreases |channels|
  {
    if channels != [] {
      var ch := channels[0];
      match r {
        case SubscribeTo(wanted, snapshot) => SubscribeKeepsIndex(c, ch, wanted, snapshot, wire);
        case UnsubscribeFrom => UnsubscribeKeepsIndex(c, ch, wire);
        case Add(tickers, snapshot) => AddKeepsIndex(c, ch, tickers, snapshot, wire);
        case Remove(tickers) =>
        case Snapshot(tickers) =>
      }
      var (d, status) := RequestOne(c, ch, r, wire);
      assert Indexed(d);
      if status.Ok? {
        RequestsKeepIndex(d, channels[1..], r, wire);
      }
    }
  }

  lemma {:induction false} SubscribedKeepsIndex(c: Client, id: int, body: Option<int>, wire: Wire)
    requires Indexed(c) && (body.Some? ==> body.value !in c.sids)
    ensures Indexed(HandleSubscribed(c, id, body, wire))
  {
    if id in c.inflight && body.Some? {
      hide Indexed;
      BindKeepsIndex(c, HandleSubscribed(c, id, body, wire), id, body.value);
    }
  }

  lemma {:induction false} BindKeepsIndex(c: Client, d: Client, id: int, sid: int)
    requires Indexed(c) && id in c.inflight && c.inflight[id] in c.channels && sid !in c.sids
    requires d.channels == c.channels[c.inflight[id] := Bind(c.channels[c.inflight[id]], sid)]
    requires d.sids == c.sids[sid := c.inflight[id]] && d.inflight == c.inflight - {id} && d.msgID >= c.msgID
    ensures Indexed(d)
  {
  }

  lemma {:induction false} FrameKeepsIndex(c: Client, f: Frame, wire: Wire)
    requires Indexed(c)
    requires f.Subscribed? && f.body.Some? ==> f.body.value !in c.sids
    requires f.Unsubscribed? ==> f.sid !in c.sids
    ensures Indexed(HandleFrame(c, f, wire))
  {
    if f.Subscribed? {
      SubscribedKeepsIndex(c, f.id, f.body, wire);
    }
  }

  /** The reply to a subscribe keeps the tables in agreement exactly when its
      SID is not already taken. */
  lemma {:induction false} SubscribedKeepsIndexIff(c: Client, id: int, sid: int, wire: Wire)
    requires Indexed(c) && id in c.inflight
    ensures Indexed(HandleSubscribed(c, id, Some(sid), wire)) <==> sid !in c.sids
  {
    if sid in c.sids {
      var d := HandleSubscribed(c, id, Some(sid), wire);
      assert c.sids[sid] != c.inflight[id];
      assert d.channels[c.sids[sid]].sid == Some(sid) && d.sids[sid] == c.inflight[id];
    } else {
      SubscribedKeepsIndex(c, id, Some(sid), wire);
    }
  }

  /** An `unsubscribed` frame keeps them in agreement exactly when it does not
      name a SID the client still uses, as when it answers our own call. */
  lemma {:induction false} UnsubscribedKeepsIndexIff(c: Client, sid: int, wire: Wire)
    requires Indexed(c)
    ensures Indexed(HandleFrame(c, Unsubscribed(sid), wire)) <==> sid !in c.sids
  {
    if sid in c.sids {
      var d := HandleFrame(c, Unsubscribed(sid), wire);
      assert d.channels[c.sids[sid]].sid == Some(sid) && sid !in d.sids;
    } else {
      FrameKeepsIndex(c, Unsubscribed(sid), wire);
    }
  }

  // ---------------------------------------------------------------------
  // Ids
  // ---------------------------------------------------------------------

  /** Either nothing was sent, or one command with the next id. */
  ghost predicate SendsNext(c: Client, d: Client) {
    || (d.msgID == c.msgID && d.log == c.log)
    || (d.msgID == c.msgID + 1 && |d.log| == |c.log| + 1 && d.log[..|c.log|] == c.log
        && d.log[|c.log|].command.id == d.msgID)
  }

  lemma {:induction false} NextIsNumbered(c: Client, d: Client)
    requires Numbered(c) && SendsNext(c, d)
    ensures Numbered(d)
  {
    if d.log != c.log {
      forall i | 0 <= i < |c.log| ensures d.log[i].command.id == i + 1 {
        assert d.log[i] == d.log[..|c.log|][i];
      }
    }
  }

  lemma {:induction false} RequestSendsNext(c: Client, ch: string, r: Request, wire: Wire)
    ensures SendsNext(c, RequestOne(c, ch, r, wire).0)
  {
    hide IsInflight, Delivers, AddOne;
    match r
    case SubscribeTo(_, _) =>
    case UnsubscribeFrom =>
    case Add(tickers, snapshot) => AddSendsNext(c, ch, tickers, snapshot, wire);
    case Remove(_) =>
    case Snapshot(_) =>
  }

  lemma {:induction false} AddSendsNext(c: Client, ch: string, tickers: Tickers, snapshot: bool, wire: Wire)
    ensures SendsNext(c, AddOne(c, ch, tickers, snapshot, wire).0)
  {
    hide AddKnown;
    var state := if ch in c.channels then Scope(c.channels[ch]) else NewChannel({}, false);
    AddKnownSendsNext(c.(channels := c.channels[ch := state]), ch, ch in c.channels, tickers, snapshot, wire);
  }

  lemma {:induction false} AddKnownSendsNext(
    c: Client, ch: string, known: bool, tickers: Tickers, snapshot: bool, wire: Wire)
    requires ch in c.channels
    ensures SendsNext(c, AddKnown(c, ch, known, tickers, snapshot, wire).0)
  {
    hide IsInflight, Delivers, AddLocally, Queue, DropInflight, SendsNext;
    var d := AddKnown(c, ch, known, tickers, snapshot, wire).0;
    var state := c.channels[ch];
    var absent, id := tickers - state.markets, c.msgID + 1;
    if absent == {} || (state.sid.None? && IsInflight(c, ch)) {
      SentNothing(c, d);
    } else if state.sid.Some? {
      SentOne(c, d, Sent(Update(id, state.sid.value, absent, AddMarkets, snapshot), Delivers(c, wire)));
    } else {
      SentOne(c, d, Sent(Subscribe(id, ch, Some(absent), snapshot), Delivers(c, wire)));
    }
  }

  lemma {:induction false} SentNothing(c: Client, d: Client)
    requires d.msgID == c.msgID && d.log == c.log
    ensures SendsNext(c, d)
  {
  }

  lemma {:induction false} SentOne(c: Client, d: Client, s: Sent)
    requires d.msgID == c.msgID + 1 && d.log == c.log + [s] && s.command.id == d.msgID
    ensures SendsNext(c, d)
  {
  }

  lemma {:induction false} RequestsKeepNumbers(c: Client, channels: seq<string>, r: Request, wire: Wire)
    requires Numbered(c)
    ensures Numbered(RequestEach(c, channels, r, wire).0)
    decreases |channels|
  {
    hide RequestOne, Numbered, SendsNext;
    if channels != [] {
      var d := RequestOne(c, channels[0], r, wire).0;
      RequestSendsNext(c, channels[0], r, wire);
      NextIsNumbered(c, d);
      RequestsKeepNumbers(d, channels[1..], r, wire);
    }
  }

  lemma {:induction false} RecoverKeepsNumbers(c: Client, order: seq<string>, wire: Wire)
    requires Numbered(c) && forall ch :: ch in order ==> ch in c.channels
    ensures Numbered(RecoverSubscriptions(c, order, wire).0)
    decreases |order|
  {
    if order != [] {
      var state := c.channels[order[0]];
      if !Recoverable(state) {
        RecoverKeepsNumbers(c, order[1..], wire);
      } else {
        var d := SendSubscribe(c, order[0], WantedOf(state), false, wire);
        NextIsNumbered(c, d);
        RecoverKeepsNumbers(d, order[1..], wire);
      }
    }
  }

  // ---------------------------------------------------------------------
  // Recovery
  // ---------------------------------------------------------------------

  /** Every channel of the client, once, in some order. */
  ghost predicate Enumerates(order: seq<string>, c: Client) {
    && (forall ch :: ch in order <==> ch in c.channels)
    && (forall i, j :: 0 <= i < j < |order| ==> order[i] != order[j])
  }

  function ToRecover(c: Client, order: seq<string>): (channels: seq<string>)
    requires forall ch :: ch in order ==> ch in c.channels
    ensures forall ch :: ch in channels <==> ch in order && Recoverable(c.channels[ch])
  {
    if order == [] then []
    else
      assert order == [order[0]] + order[1..];
      (if Recoverable(c.channels[order[0]]) then [order[0]] else []) + ToRecover(c, order[1..])
  }

  lemma {:induction false} ToRecoverIsDistinct(c: Client, order: seq<string>)
    requires forall ch :: ch in order ==> ch in c.channels
    requires forall i, j :: 0 <= i < j < |order| ==> order[i] != order[j]
    ensures forall i, j :: 0 <= i < j < |ToRecover(c, order)| ==> ToRecover(c, order)[i] != ToRecover(c, order)[j]
  {
    if order != [] {
      assert forall i :: 0 <= i < |order[1..]| ==> order[1..][i] == order[i + 1];
      ToRecoverIsDistinct(c, order[1..]);
    }
  }

  /** One subscribe per channel, numbered on from `base`, asking for everything
      if the channel is global and otherwise for exactly its markets. */
  function RecoveryLog(c: Client, channels: seq<string>, base: int): (log: seq<Sent>)
    requires forall ch :: ch in channels ==> ch in c.channels
    ensures |log| == |channels|
    ensures forall i :: 0 <= i < |log| ==>
              log[i] == Sent(Subscribe(base + 1 + i, channels[i], WantedOf(c.channels[channels[i]]), false), true)
  {
    seq(|channels|, i requires 0 <= i < |channels| =>
      Sent(Subscribe(base + 1 + i, channels[i], WantedOf(c.channels[channels[i]]), false), true))
  }

  function RecoveryIds(channels: seq<string>, base: int): (ids: map<int, string>)
    ensures forall id :: id in ids <==> base < id <= base + |channels|
    ensures forall id :: id in ids ==> ids[id] == channels[id - base - 1]
  {
    if channels == [] then map[] else map[base + 1 := channels[0]] + RecoveryIds(channels[1..], base + 1)
  }

  /** What an error-free recovery does to the client. */
  function Recovered(c: Client, channels: seq<string>): Client
    requires forall ch :: ch in channels ==> ch in c.channels
  {
    c.(msgID := c.msgID + |channels|,
       inflight := c.inflight + RecoveryIds(channels, c.msgID),
       log := c.log + RecoveryLog(c, channels, c.msgID))
  }

  lemma {:induction false} RecoverIsRecovered(c: Client, order: seq<string>, wire: Wire)
    requires forall ch :: ch in order ==> ch in c.channels
    requires RecoverSubscriptions(c, order, wire).1
    ensures RecoverSubscriptions(c, order, wire).0 == Recovered(c, ToRecover(c, order))
    decreases |order|
  {
    hide RecoveryLog, RecoveryIds, Recovered, WantedOf;
    if order == [] {
      RecoveredNothing(c);
    } else {
      var state, rest := c.channels[order[0]], ToRecover(c, order[1..]);
      if !Recoverable(state) {
        RecoverIsRecovered(c, order[1..], wire);
        assert ToRecover(c, order) == rest;
      } else {
        var d := SendSubscribe(c, order[0], WantedOf(state), false, wire);
        RecoverIsRecovered(d, order[1..], wire);
        SameToRecover(c, d, order[1..]);
        RecoveredStep(c, d, order[0], rest);
      }
    }
  }

  lemma {:induction false} RecoveredNothing(c: Client)
    ensures Recovered(c, []) == c
  {
    assert RecoveryIds([], c.msgID) == map[] && RecoveryLog(c, [], c.msgID) == [];
  }

  lemma {:induction false} SameToRecover(c: Client, d: Client, order: seq<string>)
    requires forall ch :: ch in order ==> ch in c.channels
    requires c.channels == d.channels
    ensures ToRecover(c, order) == ToRecover(d, order)
  {
    if order != [] {
      SameToRecover(c, d, order[1..]);
    }
  }

  lemma {:induction false} RecoveredStep(c: Client, d: Client, ch: string, rest: seq<string>)
    requires ch in c.channels && forall x :: x in rest ==> x in c.channels
    requires d == c.(msgID := c.msgID + 1,
                     inflight := c.inflight[c.msgID + 1 := ch],
                     log := c.log + [Sent(Subscribe(c.msgID + 1, ch, WantedOf(c.channels[ch]), false), true)])
    ensures Recovered(d, rest) == Recovered(c, [ch] + rest)
  {
    hide RecoveryLog, RecoveryIds, WantedOf;
    RecoveryIdsStep(ch, rest, c.msgID);
    MapPut(c.inflight, c.msgID + 1, ch, RecoveryIds(rest, c.msgID + 1));
    assert |[ch] + rest| == 1 + |rest|;
  }

  lemma {:induction false} MapPut<K, V>(m: map<K, V>, k: K, v: V, n: map<K, V>)
    ensures m + (map[k := v] + n) == m[k := v] + n
  {
  }

  lemma {:induction false} RecoveryIdsStep(ch: string, rest: seq<string>, base: int)
    ensures RecoveryIds([ch] + rest, base) == map[base + 1 := ch] + RecoveryIds(rest, base + 1)
  {
    assert ([ch] + rest)[1..] == rest;
  }

  lemma {:induction false} RecoverKeepsIndex(c: Client, order: seq<string>, wire: Wire)
    requires Indexed(c) && (forall ch :: ch in order ==> ch in c.channels)
    requires forall i, j :: 0 <= i < j < |order| ==> order[i] != order[j]
    requires forall ch :: ch in order && Recoverable(c.channels[ch]) ==> c.channels[ch].sid.None? && !IsInflight(c, ch)
    ensures Indexed(RecoverSubscriptions(c, order, wire).0)
    decreases |order|
  {
    if order != [] {
      var ch, rest := order[0], order[1..];
      assert forall i :: 0 <= i < |rest| ==> rest[i] == order[i + 1];
      if !Recoverable(c.channels[ch]) {
        RecoverKeepsIndex(c, rest, wire);
      } else {
        var d := SendSubscribe(c, ch, WantedOf(c.channels[ch]), false, wire);
        SendSubscribeKeepsIndex(c, ch, WantedOf(c.channels[ch]), false, wire);
        forall x | x in rest && Recoverable(c.channels[x]) ensures !IsInflight(d, x) {
          assert x in order && x != ch && !IsInflight(c, x);
        }
        if Delivers(c, wire) {
          RecoverKeepsIndex(d, rest, wire);
        }
      }
    }
  }

  /** An error-free recovery keeps the tables in agreement exactly when no
      channel it resubscribes already has a SID or a subscribe in flight. */
  lemma {:induction false} RecoverKeepsIndexIff(c: Client, order: seq<string>, wire: Wire)
    requires Indexed(c) && Enumerates(order, c) && RecoverSubscriptions(c, order, wire).1
    ensures Indexed(RecoverSubscriptions(c, order, wire).0)
        <==> forall ch :: ch in c.channels && Recoverable(c.channels[ch]) ==>
               c.channels[ch].sid.None? && !IsInflight(c, ch)
  {
    if forall ch :: ch in c.channels && Recoverable(c.channels[ch]) ==> c.channels[ch].sid.None? && !IsInflight(c, ch) {
      RecoverKeepsIndex(c, order, wire);
    }
    if Indexed(RecoverSubscriptions(c, order, wire).0) {
      forall ch | ch in c.channels && Recoverable(c.channels[ch])
        ensures c.channels[ch].sid.None? && !IsInflight(c, ch)
      {
        RecoveredWasFree(c, order, wire, ch);
      }
    }
  }

  lemma {:induction false} RecoveredWasFree(c: Client, order: seq<string>, wire: Wire, ch: string)
    requires Indexed(c) && Enumerates(order, c) && RecoverSubscriptions(c, order, wire).1
    requires Indexed(RecoverSubscriptions(c, order, wire).0)
    requires ch in c.channels && Recoverable(c.channels[ch])
    ensures c.channels[ch].sid.None? && !IsInflight(c, ch)
  {
    hide Indexed, RecoverSubscriptions, RecoveryLog;
    RecoverIsRecovered(c, order, wire);
    var rec := ToRecover(c, order);
    RecoveredOnce(c, Recovered(c, rec), RecoveryIds(rec, c.msgID), rec, ch);
  }

  lemma {:induction false} RecoveredOnce(c: Client, d: Client, added: map<int, string>, rec: seq<string>, ch: string)
    requires Indexed(c) && Indexed(d)
    requires d.channels == c.channels && d.inflight == c.inflight + added && added == RecoveryIds(rec, c.msgID)
    requires ch in rec
    ensures ch in c.channels && c.channels[ch].sid.None? && !IsInflight(c, ch)
  {
    var i :| 0 <= i < |rec| && rec[i] == ch;
    var id := c.msgID + 1 + i;
    assert id in d.inflight && d.inflight[id] == ch;
    OnlyOneId(c.inflight, added, c.msgID, id);
  }

  lemma {:induction false} OnlyOneId(issued: map<int, string>, added: map<int, string>, last: int, id: int)
    requires id in added && id > last
    requires forall i :: i in issued ==> i <= last
    requires forall i :: i in added ==> i > last
    requires forall i, j ::
               i in issued + added && j in issued + added && (issued + added)[i] == (issued + added)[j] ==> i == j
    ensures forall i :: i in issued ==> issued[i] != added[id]
  {
    var all := issued + added;
    assert all[id] == added[id];
    forall i | i in issued ensures issued[i] != added[id] {
      assert i in all && all[i] == issued[i];
    }
  }

  lemma {:induction false} RecoveredExactly(c: Client, order: seq<string>, wire: Wire)
    requires Indexed(c) && Enumerates(order, c)
    requires RecoverSubscriptions(Connect(HandleConnectionLoss(c)), order, wire).1
    ensures var lost := Connect(HandleConnectionLoss(c));
            var rec, d := ToRecover(lost, order), RecoverSubscriptions(lost, order, wire).0;
      && (forall ch :: ch in rec <==> ch in c.channels && Recoverable(c.channels[ch]))
      && (forall i, j :: 0 <= i < j < |rec| ==> rec[i] != rec[j])
      && d.channels == lost.channels && Indexed(d)
      && d.log == c.log + RecoveryLog(lost, rec, c.msgID)
      && d.inflight == RecoveryIds(rec, c.msgID)
      && (Numbered(c) ==> Numbered(d))
  {
    hide Indexed, RecoverSubscriptions, HandleConnectionLoss, Connect, ToRecover, RecoveryLog, RecoveryIds;
    var lost := Connect(HandleConnectionLoss(c));
    LostIsIndexed(c);
    LostIsEmpty(c);
    RecoverIsRecovered(lost, order, wire);
    ToRecoverIsDistinct(lost, order);
    RecoverKeepsIndex(lost, order, wire);
    assert map[] + RecoveryIds(ToRecover(lost, order), c.msgID) == RecoveryIds(ToRecover(lost, order), c.msgID);
    if Numbered(c) {
      RecoverKeepsNumbers(lost, order, wire);
    }
  }

  /** Exact recovery: after a connection is lost and made again, an error-free
      recovery writes exactly one subscribe, with an id above every one in the
      log (see ReachableIsIndexed), for each channel that is global or has markets;
      nil tickers for a global one and exactly its markets otherwise; and nothing
      else is in flight. */
  lemma {:induction false} ExactRecovery(c: Client, order: seq<string>, wire: Wire) returns (rec: seq<string>)
    requires Indexed(c) && Enumerates(order, c)
    requires RecoverSubscriptions(Connect(HandleConnectionLoss(c)), order, wire).1
    ensures forall ch :: ch in rec <==> ch in c.channels && (c.channels[ch].global || c.channels[ch].markets != {})
    ensures forall i, j :: 0 <= i < j < |rec| ==> rec[i] != rec[j]
    ensures var lost := Connect(HandleConnectionLoss(c));
            var d := RecoverSubscriptions(lost, order, wire).0;
      && d.channels == lost.channels && Indexed(d)
      && |d.log| == |c.log| + |rec| && d.log[..|c.log|] == c.log
      && (forall i :: 0 <= i < |rec| ==>
            && rec[i] in c.channels
            && var wanted := if c.channels[rec[i]].global then None else Some(c.channels[rec[i]].markets);
               d.log[|c.log| + i] == Sent(Subscribe(c.msgID + 1 + i, rec[i], wanted, false), true))
      && (forall id :: id in d.inflight <==> c.msgID < id <= c.msgID + |rec|)
      && (forall id :: id in d.inflight ==> d.inflight[id] == rec[id - c.msgID - 1])
      && (Numbered(c) ==>
            Numbered(d) && forall i, j :: 0 <= i < |c.log| <= j < |d.log| ==> d.log[j].command.id > c.log[i].command.id)
  {
    hide Indexed, Numbered, RecoverSubscriptions, HandleConnectionLoss, Connect, Renewal;
    LostIsEmpty(c);
    var log;
    rec, log := RecoveredByRenewals(c, order, wire);
    WritesExactly(c, RecoverSubscriptions(Connect(HandleConnectionLoss(c)), order, wire).0, rec, log);
  }

  lemma {:induction false} RecoveredByRenewals(c: Client, order: seq<string>, wire: Wire)
    returns (rec: seq<string>, log: seq<Sent>)
    requires Indexed(c) && Enumerates(order, c)
    requires RecoverSubscriptions(Connect(HandleConnectionLoss(c)), order, wire).1
    ensures forall ch :: ch in rec <==> ch in c.channels && (c.channels[ch].global || c.channels[ch].markets != {})
    ensures forall i, j :: 0 <= i < j < |rec| ==> rec[i] != rec[j]
    ensures |log| == |rec|
    ensures forall i :: 0 <= i < |rec| ==> rec[i] in c.channels && log[i] == Renewal(c, rec[i], c.msgID + 1 + i)
    ensures var lost := Connect(HandleConnectionLoss(c));
            var d := RecoverSubscriptions(lost, order, wire).0;
      && d.channels == lost.channels && Indexed(d) && d.log == c.log + log
      && (forall id :: id in d.inflight <==> c.msgID < id <= c.msgID + |rec|)
      && (forall id :: id in d.inflight ==> d.inflight[id] == rec[id - c.msgID - 1])
      && (Numbered(c) ==>
            Numbered(d) && forall i, j :: 0 <= i < |c.log| <= j < |d.log| ==> d.log[j].command.id > c.log[i].command.id)
  {
    hide Indexed, Numbered, RecoverSubscriptions, HandleConnectionLoss, Connect, ToRecover, RecoveryLog, RecoveryIds,
         Recoverable, Renewal;
    RecoverySays(c, []);
    RecoveredExactly(c, order, wire);
    var lost := Connect(HandleConnectionLoss(c));
    rec := ToRecover(lost, order);
    log := RecoveryLog(lost, rec, c.msgID);
    RecoverySays(c, rec);
    var d := RecoverSubscriptions(lost, order, wire).0;
    IdsExactly(d, rec, c.msgID);
    if Numbered(c) {
      NumberedLater(c, d);
    }
  }

  lemma {:induction false} IdsExactly(d: Client, rec: seq<string>, base: int)
    requires d.inflight == RecoveryIds(rec, base)
    ensures forall id :: id in d.inflight <==> base < id <= base + |rec|
    ensures forall id :: id in d.inflight ==> d.inflight[id] == rec[id - base - 1]
  {
  }

  lemma {:induction false} WritesExactly(c: Client, d: Client, rec: seq<string>, log: seq<Sent>)
    requires |log| == |rec| && d.log == c.log + log
    requires forall i :: 0 <= i < |rec| ==> rec[i] in c.channels && log[i] == Renewal(c, rec[i], c.msgID + 1 + i)
    ensures |d.log| == |c.log| + |rec| && d.log[..|c.log|] == c.log
    ensures forall i :: 0 <= i < |rec| ==>
              && rec[i] in c.channels
              && var wanted := if c.channels[rec[i]].global then None else Some(c.channels[rec[i]].markets);
                 d.log[|c.log| + i] == Sent(Subscribe(c.msgID + 1 + i, rec[i], wanted, false), true)
  {
    forall i | 0 <= i < |rec| ensures d.log[|c.log| + i] == Renewal(c, rec[i], c.msgID + 1 + i) {
      assert d.log[|c.log| + i] == log[i];
    }
  }

  /** The subscribe that renews a channel. */
  function Renewal(c: Client, ch: string, id: int): Sent
    requires ch in c.channels
  {
    Sent(Subscribe(id, ch, if c.channels[ch].global then None else Some(c.channels[ch].markets), false), true)
  }

  /** What a recovery writes, in terms of the client before the loss. */
  lemma {:induction false} RecoverySays(c: Client, rec: seq<string>)
    requires forall ch :: ch in rec ==> ch in c.channels
    ensures forall ch :: ch in c.channels ==>
              (Recoverable(c.channels[ch]) <==> c.channels[ch].global || c.channels[ch].markets != {})
    ensures var lost := Connect(HandleConnectionLoss(c));
      && lost.channels.Keys == c.channels.Keys
      && forall i :: 0 <= i < |rec| ==>
           rec[i] in c.channels && RecoveryLog(lost, rec, c.msgID)[i] == Renewal(c, rec[i], c.msgID + 1 + i)
  {
    LostIsEmpty(c);
    forall i | 0 <= i < |rec| ensures rec[i] in c.channels {
      assert rec[i] in rec;
    }
  }

  lemma {:induction false} NumberedLater(c: Client, d: Client)
    requires Numbered(c) && Numbered(d)
    ensures forall i, j :: 0 <= i < |c.log| <= j < |d.log| ==> d.log[j].command.id > c.log[i].command.id
  {
  }

  /** A recovery sends nothing but subscribes: it leaves every channel and SID, and
      the reconnect flag, whether all its writes succeed or not. It ends with the
      first write that fails. */
  lemma {:induction false} RecoverOnlySends(c: Client, order: seq<string>, wire: Wire)
    requires forall ch :: ch in order ==> ch in c.channels
    ensures var (d, ok) := RecoverSubscriptions(c, order, wire);
      && d.channels == c.channels && d.sids == c.sids && d.forceReconnect == c.forceReconnect
      && d.connected == c.connected && c.log <= d.log
      && (forall i :: |c.log| <= i < |d.log| ==> d.log[i].ok == (ok || i < |d.log| - 1))
      && (!ok ==> |d.log| > |c.log|)
    decreases |order|
  {
    if order != [] {
      var state := c.channels[order[0]];
      if !Recoverable(state) {
        RecoverOnlySends(c, order[1..], wire);
      } else if Delivers(c, wire) {
        var d := SendSubscribe(c, order[0], WantedOf(state), false, wire);
        RecoverOnlySends(d, order[1..], wire);
        assert forall i :: 0 <= i < |d.log| ==> RecoverSubscriptions(d, order[1..], wire).0.log[i] == d.log[i];
      }
    }
  }

  lemma {:induction false} LostIsIndexed(c: Client)
    requires Indexed(c)
    ensures Indexed(HandleConnectionLoss(c)) && Indexed(Connect(HandleConnectionLoss(c)))
  {
  }

  /** A lost connection leaves the channels with what they want and nothing else:
      no SID, and sequence numbers from the start. Nothing can be written then. */
  lemma {:induction false} LostIsEmpty(c: Client)
    ensures var lost := Connect(HandleConnectionLoss(c));
      && lost.connected && lost.msgID == c.msgID && lost.log == c.log && lost.inflight == map[] && lost.sids == map[]
      && !HandleConnectionLoss(c).connected && lost.forceReconnect == c.forceReconnect
      && lost.channels.Keys == c.channels.Keys
      && (forall ch :: ch in c.channels ==>
            lost.channels[ch]
            == Channel(c.channels[ch].markets, c.channels[ch].pending, None, 0, c.channels[ch].global))
  {
  }

  /** A reply to a subscribe: the id it answers and the SID it grants. */
  datatype Reply = Reply(id: int, sid: int)

  function HandleReplies(c: Client, replies: seq<Reply>, wire: Wire): Client
    decreases |replies|
  {
    if replies == [] then c
    else HandleReplies(HandleSubscribed(c, replies[0].id, Some(replies[0].sid), wire), replies[1..], wire)
  }

  /** Replies for exactly the subscribes in flight, with SIDs not in use. */
  ghost predicate AnswersAll(c: Client, replies: seq<Reply>) {
    && (forall id :: id in c.inflight <==> exists i :: 0 <= i < |replies| && replies[i].id == id)
    && (forall i, j :: 0 <= i < j < |replies| ==> replies[i].id != replies[j].id && replies[i].sid != replies[j].sid)
    && (forall i :: 0 <= i < |replies| ==> replies[i].sid !in c.sids)
  }

  /** The queued tickers each reply releases, on the SID it names. */
  function Released(c: Client, replies: seq<Reply>): seq<(int, Tickers)>
    requires forall i :: 0 <= i < |replies| ==> replies[i].id in c.inflight && c.inflight[replies[i].id] in c.channels
  {
    if replies == [] then []
    else
      var queued := c.channels[c.inflight[replies[0].id]].pending;
      (if queued == {} then [] else [(replies[0].sid, queued)]) + Released(c, replies[1..])
  }

  /** The add_markets commands of a log. */
  function Additions(log: seq<Sent>): seq<(int, Tickers)> {
    if log == [] then []
    else
      (if log[0].command.Update? && log[0].command.action.AddMarkets?
       then [(log[0].command.sid, log[0].command.tickers)] else [])
      + Additions(log[1..])
  }

  lemma {:induction false} ReplyBinds(c: Client, r: Reply, wire: Wire)
    requires Indexed(c) && r.id in c.inflight && r.sid !in c.sids
    ensures var d, ch := HandleSubscribed(c, r.id, Some(r.sid), wire), c.inflight[r.id];
      && Indexed(d)
      && d.channels == c.channels[ch := Bind(c.channels[ch], r.sid)]
      && d.inflight == c.inflight - {r.id} && d.sids == c.sids[r.sid := ch]
      && c.log <= d.log
      && Additions(d.log[|c.log|..])
         == if c.channels[ch].pending == {} then [] else [(r.sid, c.channels[ch].pending)]
  {
    SubscribedKeepsIndex(c, r.id, Some(r.sid), wire);
    var d := HandleSubscribed(c, r.id, Some(r.sid), wire);
    if d.log == c.log {
      assert d.log[|c.log|..] == [];
    } else {
      assert d.log[|c.log|..] == [d.log[|c.log|]];
    }
  }

  /** What each frame does. A reply for an unknown id, and a frame for an unknown SID or
      of an unknown type, do nothing; a reply that does not parse only ends the wait.
      An acknowledgement or a data frame sets the channel's number, and asks for a
      reconnect if it is not the next one; an acknowledgement with tickers replaces
      the markets. A queue goes out with the reply, and asks for a reconnect if that
      write fails. */
  lemma {:induction false} FrameMeaning(c: Client, sid: int, seqNo: int, tickers: Tickers, id: int, wire: Wire)
    requires Indexed(c)
    ensures id !in c.inflight ==> forall body :: HandleFrame(c, Subscribed(id, body), wire) == c
    ensures HandleFrame(c, Subscribed(id, None), wire) == c.(inflight := c.inflight - {id})
    ensures id in c.inflight ==>
      var d, ch := HandleFrame(c, Subscribed(id, Some(sid)), wire), c.inflight[id];
      var ok := c.connected && wire(c.msgID + 1);
      && ch in c.channels
      && d.log == c.log + (if c.channels[ch].pending == {} then []
                           else [Sent(Update(c.msgID + 1, sid, c.channels[ch].pending, AddMarkets, false), ok)])
      && d.forceReconnect == (c.forceReconnect || (c.channels[ch].pending != {} && !ok))
      && d.inflight == c.inflight - {id} && d.sids == c.sids[sid := ch]
      && d.channels == c.channels[ch := Channel(c.channels[ch].markets, {}, Some(sid), c.channels[ch].seqNo,
                                                c.channels[ch].global)]
    ensures HandleFrame(c, Unsubscribed(sid), wire) == c.(sids := c.sids - {sid}) && HandleFrame(c, Ignored, wire) == c
    ensures HandleFrame(c, Data(sid, seqNo, false), wire) == c
    ensures sid !in c.sids ==>
      HandleFrame(c, Data(sid, seqNo, true), wire) == HandleFrame(c, Acknowledged(sid, seqNo, tickers), wire) == c
    ensures sid in c.sids ==>
      && c.sids[sid] in c.channels
      && var ch, state := c.sids[sid], c.channels[c.sids[sid]];
         var flag := c.forceReconnect || (state.seqNo != 0 && state.seqNo + 1 != seqNo);
         var markets := if tickers == {} then state.markets else tickers;
         && HandleFrame(c, Data(sid, seqNo, true), wire)
            == c.(forceReconnect := flag, channels := c.channels[ch := state.(seqNo := seqNo)])
         && HandleFrame(c, Acknowledged(sid, seqNo, tickers), wire)
            == c.(forceReconnect := flag, channels := c.channels[ch := state.(seqNo := seqNo, markets := markets)])
  {
    if id !in c.inflight {
      assert c.inflight - {id} == c.inflight;
    } else {
      assert c.log + [] == c.log;
    }
    if sid in c.sids {
      var ch, state := c.sids[sid], c.channels[c.sids[sid]];
      var next := state.(seqNo := seqNo);
      PutTwice(c.channels, ch, next, Reconcile(next, tickers));
    }
  }

  lemma {:induction false} AnswersRest(c: Client, d: Client, replies: seq<Reply>)
    requires replies != [] && AnswersAll(c, replies)
    requires d.inflight == c.inflight - {replies[0].id} && d.sids.Keys == c.sids.Keys + {replies[0].sid}
    ensures AnswersAll(d, replies[1..])
  {
    var rest := replies[1..];
    assert forall i :: 0 <= i < |rest| ==> rest[i] == replies[i + 1];
    forall id ensures id in d.inflight <==> exists i :: 0 <= i < |rest| && rest[i].id == id {
      if id in d.inflight {
        var i :| 0 <= i < |replies| && replies[i].id == id;
        assert rest[i - 1].id == id;
      }
      if exists i :: 0 <= i < |rest| && rest[i].id == id {
        var i :| 0 <= i < |rest| && rest[i].id == id;
        assert replies[i + 1].id == id && replies[0].id != replies[i + 1].id;
      }
    }
  }

  lemma {:induction false} ReleasedLater(c: Client, d: Client, r: Reply, rest: seq<Reply>)
    requires InflightIsSingle(c) && r.id in c.inflight
    requires d.inflight == c.inflight - {r.id}
    requires d.channels == c.channels[c.inflight[r.id] := Bind(c.channels[c.inflight[r.id]], r.sid)]
    requires forall i :: 0 <= i < |rest| ==> rest[i].id in d.inflight
    ensures forall i :: 0 <= i < |rest| ==> rest[i].id in c.inflight && c.inflight[rest[i].id] in c.channels
    ensures forall i :: 0 <= i < |rest| ==> d.inflight[rest[i].id] in d.channels
    ensures Released(d, rest) == Released(c, rest)
  {
    if rest != [] {
      assert c.inflight[rest[0].id] != c.inflight[r.id];
      ReleasedLater(c, d, r, rest[1..]);
    }
  }

  lemma {:induction false} AdditionsAppend(xs: seq<Sent>, ys: seq<Sent>)
    ensures Additions(xs + ys) == Additions(xs) + Additions(ys)
  {
    if xs == [] {
      assert xs + ys == ys;
    } else {
      assert (xs + ys)[1..] == xs[1..] + ys;
      AdditionsAppend(xs[1..], ys);
    }
  }

  /** Splitting the additions made since `xs` at an intermediate log. */
  lemma {:induction false} AdditionsSince(xs: seq<Sent>, ys: seq<Sent>, zs: seq<Sent>)
    requires xs <= ys <= zs
    ensures Additions(zs[|xs|..]) == Additions(ys[|xs|..]) + Additions(zs[|ys|..])
    ensures Additions([]) == []
  {
    assert zs[|xs|..] == ys[|xs|..] + zs[|ys|..];
    AdditionsAppend(ys[|xs|..], zs[|ys|..]);
  }

  lemma {:induction false} RepliesRestoreTables(c: Client, replies: seq<Reply>, wire: Wire)
    requires Indexed(c) && AnswersAll(c, replies)
    ensures var d := HandleReplies(c, replies, wire);
            Indexed(d) && d.inflight == map[] && d.channels.Keys == c.channels.Keys && c.log <= d.log
    decreases |replies|
  {
    if replies == [] {
      forall id ensures id !in c.inflight {
      }
      assert c.inflight == map[];
    } else {
      ReplyBinds(c, replies[0], wire);
      var e := HandleSubscribed(c, replies[0].id, Some(replies[0].sid), wire);
      AnswersRest(c, e, replies);
      RepliesRestoreTables(e, replies[1..], wire);
    }
  }

  /** Channels without a subscribe in flight are left alone. */
  lemma {:induction false} RepliesSpareOthers(c: Client, replies: seq<Reply>, wire: Wire, ch: string)
    requires Indexed(c) && AnswersAll(c, replies) && ch in c.channels && !IsInflight(c, ch)
    ensures var d := HandleReplies(c, replies, wire); ch in d.channels && d.channels[ch] == c.channels[ch]
    decreases |replies|
  {
    if replies != [] {
      var r := replies[0];
      ReplyBinds(c, r, wire);
      var e := HandleSubscribed(c, r.id, Some(r.sid), wire);
      AnswersRest(c, e, replies);
      assert c.inflight[r.id] in c.inflight.Values;
      RepliesSpareOthers(e, replies[1..], wire, ch);
    }
  }

  lemma {:induction false} RepliesBind(c: Client, replies: seq<Reply>, wire: Wire, i: nat)
    requires Indexed(c) && AnswersAll(c, replies) && i < |replies| && replies[i].id in c.inflight
    ensures var d, ch := HandleReplies(c, replies, wire), c.inflight[replies[i].id];
            ch in d.channels && d.channels[ch] == Bind(c.channels[ch], replies[i].sid)
    decreases |replies|
  {
    var r, rest := replies[0], replies[1..];
    ReplyBinds(c, r, wire);
    var e := HandleSubscribed(c, r.id, Some(r.sid), wire);
    AnswersRest(c, e, replies);
    if i == 0 {
      assert forall id :: id in e.inflight ==> e.inflight[id] != c.inflight[r.id];
      RepliesSpareOthers(e, rest, wire, c.inflight[r.id]);
    } else {
      assert rest[i - 1] == replies[i] && replies[i].id in e.inflight;
      RepliesBind(e, rest, wire, i - 1);
      assert c.inflight[replies[i].id] != c.inflight[r.id];
    }
  }

  lemma {:induction false} RepliesRelease(c: Client, replies: seq<Reply>, wire: Wire)
    requires Indexed(c) && AnswersAll(c, replies)
    requires forall i :: 0 <= i < |replies| ==> replies[i].id in c.inflight
    ensures var d := HandleReplies(c, replies, wire);
            c.log <= d.log && Additions(d.log[|c.log|..]) == Released(c, replies)
    decreases |replies|
  {
    RepliesRestoreTables(c, replies, wire);
    hide AnswersAll, HandleSubscribed, SidsAreInverse, QueuesAwaitSid, Additions, Bind;
    if replies == [] {
      assert c.log[|c.log|..] == [] && Additions([]) == [] by {
        AdditionsSince([], [], []);
      }
    } else {
      var r, rest := replies[0], replies[1..];
      ReplyBinds(c, r, wire);
      var e, d := HandleSubscribed(c, r.id, Some(r.sid), wire), HandleReplies(c, replies, wire);
      AnswersRest(c, e, replies);
      forall i | 0 <= i < |rest| ensures rest[i].id in e.inflight {
        assert rest[i] == replies[i + 1];
      }
      RepliesRelease(e, rest, wire);
      ReleasedLater(c, e, r, rest);
      AdditionsSince(c.log, e.log, d.log);
    }
  }

  /** Processing the replies, in any order, restores the tables: nothing is in
      flight, each answered channel has the SID granted to it and its queue went
      out in one add_markets on that SID, and no other channel changed. */
  lemma {:induction false} RepliesRestoreIndex(c: Client, replies: seq<Reply>, wire: Wire)
    requires Indexed(c) && AnswersAll(c, replies)
    ensures forall i :: 0 <= i < |replies| ==> replies[i].id in c.inflight
    ensures var d := HandleReplies(c, replies, wire);
      && Indexed(d) && d.inflight == map[] && d.channels.Keys == c.channels.Keys
      && (forall i :: 0 <= i < |replies| ==>
            var ch := c.inflight[replies[i].id]; d.channels[ch] == Bind(c.channels[ch], replies[i].sid))
      && (forall ch :: ch in c.channels && !IsInflight(c, ch) ==> d.channels[ch] == c.channels[ch])
      && c.log <= d.log && Additions(d.log[|c.log|..]) == Released(c, replies)
  {
    forall i | 0 <= i < |replies| ensures replies[i].id in c.inflight {
    }
    RepliesRestoreTables(c, replies, wire);
    RepliesRelease(c, replies, wire);
    forall i | 0 <= i < |replies|
      ensures var d, ch := HandleReplies(c, replies, wire), c.inflight[replies[i].id];
              ch in d.channels && d.channels[ch] == Bind(c.channels[ch], replies[i].sid)
    {
      RepliesBind(c, replies, wire, i);
    }
    forall ch | ch in c.channels && !IsInflight(c, ch)
      ensures var d := HandleReplies(c, replies, wire); ch in d.channels && d.channels[ch] == c.channels[ch]
    {
      RepliesSpareOthers(c, replies, wire, ch);
    }
  }

  // ---------------------------------------------------------------------
  // Every reachable state
  // ---------------------------------------------------------------------

  /** What can happen to a client, one atomic step at a time. */
  datatype Event =
    | Calls(channels: seq<string>, request: Request)
    | Incoming(frame: Frame)
    | Lost
    | Connected
    | Recover(order: seq<string>)

  /** Assumptions on the outside world: SIDs are not granted twice, `unsubscribed`
      only answers our own call, and recovery starts with nothing in flight and
      no SID known. */
  ghost predicate Expected(c: Client, e: Event) {
    match e
    case Incoming(Subscribed(_, body)) => body.Some? ==> body.value !in c.sids
    case Incoming(Unsubscribed(sid)) => sid !in c.sids
    case Recover(order) => Enumerates(order, c) && c.inflight == map[] && c.sids == map[]
    case _ => true
  }

  ghost function Next(c: Client, e: Event, wire: Wire): Client
    requires Expected(c, e)
  {
    match e
    case Calls(channels, request) => Call(c, channels, request, wire).0
    case Incoming(f) => HandleFrame(c, f, wire)
    case Lost => HandleConnectionLoss(c)
    case Connected => Connect(c)
    case Recover(order) => RecoverSubscriptions(c, order, wire).0
  }

  /** A client as it is created. */
  function Start(): Client {
    Client(0, false, false, map[], map[], map[], [])
  }

  /** `states` is the history of a client through the given events. */
  ghost predicate IsRun(states: seq<Client>, events: seq<Event>, wire: Wire) {
    && |states| == |events| + 1 && states[0] == Start()
    && forall i :: 0 <= i < |events| ==>
         Expected(states[i], events[i]) && states[i + 1] == Next(states[i], events[i], wire)
  }

  lemma {:induction false} NextKeepsIndex(c: Client, e: Event, wire: Wire)
    requires Indexed(c) && Expected(c, e)
    ensures Indexed(Next(c, e, wire))
  {
    match e
    case Calls(channels, request) => RequestsKeepIndex(c, channels, request, wire);
    case Incoming(f) => FrameKeepsIndex(c, f, wire);
    case Lost => LostIsIndexed(c);
    case Connected =>
    case Recover(order) => RecoverKeepsIndex(c, order, wire);
  }

  lemma {:induction false} NextKeepsNumbers(c: Client, e: Event, wire: Wire)
    requires Numbered(c) && Expected(c, e)
    ensures Numbered(Next(c, e, wire))
  {
    match e
    case Calls(channels, request) => RequestsKeepNumbers(c, channels, request, wire);
    case Incoming(f) =>
    case Lost =>
    case Connected =>
    case Recover(order) => RecoverKeepsNumbers(c, order, wire);
  }

  /** In every reachable state the SID table is the inverse of the channels'
      SIDs, no channel has two subscribes in flight or one besides its SID, and
      tickers are queued only while a SID is awaited; and no id was used twice. */
  lemma {:induction false} ReachableIsIndexed(states: seq<Client>, events: seq<Event>, wire: Wire, n: nat)
    requires IsRun(states, events, wire) && n < |states|
    ensures Indexed(states[n]) && Numbered(states[n])
  {
    if n > 0 {
      ReachableIsIndexed(states, events, wire, n - 1);
      NextKeepsNumbers(states[n - 1], events[n - 1], wire);
      NextKeepsIndex(states[n - 1], events[n - 1], wire);
    }
  }

  /** Recovery needs nothing in flight: adding a market to a known channel while
      disconnected leaves an id behind, and recovery then sends a second one. */
  lemma {:induction false} DisconnectedAddBreaksRecovery() returns (c: Client, wire: Wire)
    ensures Indexed(c) && !c.connected && c.inflight == map[] && c.sids == map[]
    ensures var d := AddOne(c, "ch", {"b"}, false, wire).0;
            Indexed(d) && Enumerates(["ch"], d)
            && RecoverSubscriptions(Connect(d), ["ch"], wire).1
            && !Indexed(RecoverSubscriptions(Connect(d), ["ch"], wire).0)
  {
    c := Start().(channels := map["ch" := NewChannel({"a"}, false)]);
    wire := _ => true;
    var d := AddOne(c, "ch", {"b"}, false, wire).0;
    assert {"b"} - {"a"} == {"b"} && "b" in {"b"};
    assert d.inflight == map[1 := "ch"] && d.channels["ch"].markets == {"a"};
    assert Enumerates(["ch"], d);
    assert "a" in d.channels["ch"].markets;
    assert ["ch"][1..] == [];
    var e := RecoverSubscriptions(Connect(d), ["ch"], wire).0;
    assert e.inflight[1] == "ch" && e.inflight[2] == "ch";
  }

  /** Tickers queued while a global subscribe was in flight are stranded by a lost
      connection: the channel is no longer global, has no markets, and so is not
      resubscribed, whatever the reply would have been. */
  lemma {:induction false} QueuedTickersCanBeStranded(wire: Wire) returns (c: Client)
    requires wire(1)
    ensures exists b :: b == Connect(Start())
              && c == AddOne(SubscribeOne(b, "ch", None, false, wire).0, "ch", {"a"}, false, wire).0
    ensures var lost := HandleConnectionLoss(c);
            "ch" in lost.channels && lost.channels["ch"].pending == {"a"}
            && RecoverSubscriptions(Connect(lost), ["ch"], wire) == (Connect(lost), true)
  {
    var b := Connect(Start());
    var d := SubscribeOne(b, "ch", None, false, wire).0;
    assert d.channels["ch"] == NewChannel({}, true) && d.inflight == map[1 := "ch"];
    c := AddOne(d, "ch", {"a"}, false, wire).0;
    assert d.inflight[1] == "ch" && IsInflight(d, "ch");
    assert {"a"} - {} == {"a"} && "a" in {"a"};
    assert {} + {"a"} == {"a"};
    var lost := HandleConnectionLoss(c);
    assert !Recoverable(lost.channels["ch"]);
    assert ["ch"][1..] == [];
  }

  /** After an error-free recovery and all its replies, in any order, the tickers
      that were queued when the connection was lost have been tried, in one
      add_markets on the SID granted to their channel, exactly if the channel is
      global or has markets; otherwise they are still queued, and nothing is in
      flight to release them. (A try whose write fails loses them, and asks for a
      reconnect.) */
  lemma {:induction false} QueueTriedIff(c: Client, order: seq<string>, replies: seq<Reply>, ch: string, wire: Wire)
    requires Indexed(c) && Enumerates(order, c) && ch in c.channels && c.channels[ch].pending != {}
    requires RecoverSubscriptions(Connect(HandleConnectionLoss(c)), order, wire).1
    requires AnswersAll(RecoverSubscriptions(Connect(HandleConnectionLoss(c)), order, wire).0, replies)
    ensures var d := RecoverSubscriptions(Connect(HandleConnectionLoss(c)), order, wire).0;
            var e, queued := HandleReplies(d, replies, wire), c.channels[ch].pending;
      && (IsInflight(d, ch) <==> Recoverable(c.channels[ch]))
      && ch in e.channels && d.log <= e.log && e.inflight == map[]
      && (Recoverable(c.channels[ch]) ==>
            e.channels[ch].pending == {} && e.channels[ch].sid.Some?
            && (e.channels[ch].sid.value, queued) in Additions(e.log[|d.log|..]))
      && (!Recoverable(c.channels[ch]) ==> e.channels[ch].pending == queued && e.channels[ch].sid.None?)
  {
    hide Indexed, RecoverSubscriptions, HandleConnectionLoss, Connect, ToRecover, RecoveryLog, AnswersAll,
         HandleReplies, Recoverable, Released, Additions;
    LostIsEmpty(c);
    var lost := Connect(HandleConnectionLoss(c));
    var d, rec := RecoverSubscriptions(lost, order, wire).0, ToRecover(lost, order);
    RecoveredExactly(c, order, wire);
    RepliesRestoreIndex(d, replies, wire);
    if Recoverable(c.channels[ch]) {
      RecoveredIsInflight(d, rec, c.msgID, ch);
      var i := AnsweredAt(d, replies, ch);
      ReleasedAt(d, replies, i);
    } else {
      assert !IsInflight(d, ch);
    }
  }

  /** Which reply answers the subscribe in flight for a channel. */
  lemma {:induction false} AnsweredAt(c: Client, replies: seq<Reply>, ch: string) returns (i: nat)
    requires AnswersAll(c, replies) && IsInflight(c, ch)
    ensures i < |replies| && replies[i].id in c.inflight && c.inflight[replies[i].id] == ch
  {
    var id :| id in c.inflight && c.inflight[id] == ch;
    i :| 0 <= i < |replies| && replies[i].id == id;
  }

  lemma {:induction false} ReleasedAt(c: Client, replies: seq<Reply>, i: nat)
    requires forall k :: 0 <= k < |replies| ==> replies[k].id in c.inflight && c.inflight[replies[k].id] in c.channels
    requires i < |replies| && c.channels[c.inflight[replies[i].id]].pending != {}
    ensures (replies[i].sid, c.channels[c.inflight[replies[i].id]].pending) in Released(c, replies)
  {
    if i > 0 {
      assert replies[1..][i - 1] == replies[i];
      ReleasedAt(c, replies[1..], i - 1);
    }
  }

  // ---------------------------------------------------------------------
  // The listen loop after a lost connection
  // ---------------------------------------------------------------------

  /** The client when it next starts reading: only the dial made right after the
      loss is followed by a recovery; when that dial fails, the loop dials again
      at its top and goes straight back to reading. */
  function Resume(c: Client, firstDial: bool, order: seq<string>, wire: Wire): Client
    requires forall ch :: ch in order ==> ch in c.channels
  {
    var lost := HandleConnectionLoss(c);
    if firstDial then RecoverSubscriptions(Connect(lost), order, wire).0 else Connect(lost)
  }

  lemma {:induction false} ResumeKeepsIndex(c: Client, firstDial: bool, order: seq<string>, wire: Wire)
    requires Indexed(c) && Enumerates(order, c)
    ensures Indexed(Resume(c, firstDial, order, wire))
  {
    hide Indexed, HandleConnectionLoss, Connect, RecoverSubscriptions;
    LostIsIndexed(c);
    LostIsEmpty(c);
    if firstDial {
      RecoverKeepsIndex(Connect(HandleConnectionLoss(c)), order, wire);
    }
  }

  /** With every write succeeding, all subscriptions are renewed exactly when the
      first dial succeeded (or there was nothing to renew). */
  lemma {:induction false} RenewedIffFirstDial(c: Client, firstDial: bool, order: seq<string>, wire: Wire)
    requires Indexed(c) && Enumerates(order, c)
    requires forall id :: wire(id)
    ensures (forall ch :: ch in c.channels && Recoverable(c.channels[ch]) ==>
               IsInflight(Resume(c, firstDial, order, wire), ch))
        <==> firstDial || forall ch :: ch in c.channels ==> !Recoverable(c.channels[ch])
  {
    hide Indexed, RecoverSubscriptions, HandleConnectionLoss, Connect, ToRecover, RecoveryLog, Recoverable;
    LostIsEmpty(c);
    var lost := Connect(HandleConnectionLoss(c));
    var d := Resume(c, firstDial, order, wire);
    if firstDial {
      AllWritesRecover(lost, order, wire);
      RecoveredExactly(c, order, wire);
      forall ch | ch in c.channels && Recoverable(c.channels[ch]) ensures IsInflight(d, ch) {
        RecoveredIsInflight(d, ToRecover(lost, order), c.msgID, ch);
      }
    } else {
      assert forall ch :: !IsInflight(d, ch);
    }
  }

  lemma {:induction false} RecoveredIsInflight(d: Client, rec: seq<string>, base: int, ch: string)
    requires d.inflight == RecoveryIds(rec, base) && ch in rec
    ensures IsInflight(d, ch)
  {
    var i :| 0 <= i < |rec| && rec[i] == ch;
    assert d.inflight[base + 1 + i] == ch;
  }

  lemma {:induction false} AllWritesRecover(c: Client, order: seq<string>, wire: Wire)
    requires c.connected && (forall ch :: ch in order ==> ch in c.channels) && forall id :: wire(id)
    ensures RecoverSubscriptions(c, order, wire).1
    decreases |order|
  {
    if order != [] {
      var state := c.channels[order[0]];
      AllWritesRecover(if Recoverable(state) then SendSubscribe(c, order[0], WantedOf(state), false, wire) else c,
                       order[1..], wire);
    }
  }
}
