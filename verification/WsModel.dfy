/** The WebSocket client's subscription tables as values (ws_client.go,
    ws_types.go). Each operation runs as one atomic step here; WsClient refines
    these functions in place, WsInterleaving takes them apart at the points
    where the program releases its lock. */
module WsModel {
  import opened Basics

  type Tickers = set<string>

  /** The state of one channel; its name is the key it is stored under. */
  datatype Channel = Channel(markets: Tickers, pending: Tickers, sid: Option<int>, seqNo: int, global: bool)

  datatype Action = AddMarkets | DeleteMarkets | GetSnapshot

  /** Outgoing commands; `tickers` is None for a global subscription. */
  datatype Command =
    | Subscribe(id: int, channel: string, wanted: Option<Tickers>, snapshot: bool)
    | Unsubscribe(id: int, sid: int)
    | Update(id: int, sid: int, tickers: Tickers, action: Action, snapshot: bool)

  /** A command the client tried to write, and whether the write succeeded. */
  datatype Sent = Sent(command: Command, ok: bool)

  /** Incoming frames, parsed. A body that does not parse is None. */
  datatype Frame =
    | Subscribed(id: int, body: Option<int>)
    | Acknowledged(sid: int, seqNo: int, tickers: Tickers)
    | Unsubscribed(sid: int)
    | Data(sid: int, seqNo: int, known: bool)
    | Ignored

  datatype Client = Client(
    msgID: int,
    connected: bool,
    forceReconnect: bool,
    channels: map<string, Channel>,
    sids: map<int, string>,
    inflight: map<int, string>,
    log: seq<Sent>)

  datatype Status = Ok | InvalidArgument | SendFailed

  /** Which writes succeed on a live connection, by message id. */
  type Wire = int -> bool

  function NewChannel(markets: Tickers, global: bool): Channel {
    Channel(markets, {}, None, 0, global)
  }

  // ---------------------------------------------------------------------
  // Effects on one channel
  // ---------------------------------------------------------------------

  function AddLocally(ch: Channel, tickers: Tickers): Channel {
    ch.(markets := ch.markets + tickers)
  }

  function RemoveLocally(ch: Channel, tickers: Tickers): Channel {
    ch.(markets := ch.markets - tickers)
  }

  function Queue(ch: Channel, tickers: Tickers): Channel {
    ch.(pending := ch.pending + tickers)
  }

  function Scope(ch: Channel): Channel {
    ch.(global := false)
  }

  /** A subscribe was answered: the channel has its SID, and the queue is taken. */
  function Bind(ch: Channel, sid: int): Channel {
    ch.(sid := Some(sid), pending := {})
  }

  /** An acknowledgement with a non-empty list replaces the local set. */
  function Reconcile(ch: Channel, tickers: Tickers): Channel {
    if tickers != {} then ch.(markets := tickers) else ch
  }

  function Detached(ch: Channel): Channel {
    ch.(sid := None, seqNo := 0)
  }

  predicate IsGap(ch: Channel, seqNo: int) {
    ch.seqNo != 0 && ch.seqNo + 1 != seqNo
  }

  predicate Recoverable(ch: Channel) {
    ch.global || ch.markets != {}
  }

  function WantedOf(ch: Channel): Option<Tickers> {
    if ch.global then None else Some(ch.markets)
  }

  // ---------------------------------------------------------------------
  // Sending
  // ---------------------------------------------------------------------

  predicate Delivers(c: Client, wire: Wire) {
    c.connected && wire(c.msgID + 1)
  }

  function SendSubscribe(c: Client, channel: string, wanted: Option<Tickers>, snapshot: bool, wire: Wire): Client {
    var id := c.msgID + 1;
    c.(msgID := id,
       inflight := c.inflight[id := channel],
       log := c.log + [Sent(Subscribe(id, channel, wanted, snapshot), Delivers(c, wire))])
  }

  function SendUnsubscribe(c: Client, sid: int, wire: Wire): Client {
    var id := c.msgID + 1;
    c.(msgID := id, log := c.log + [Sent(Unsubscribe(id, sid), Delivers(c, wire))])
  }

  function SendUpdate(c: Client, sid: int, tickers: Tickers, action: Action, snapshot: bool, wire: Wire): Client {
    var id := c.msgID + 1;
    c.(msgID := id, log := c.log + [Sent(Update(id, sid, tickers, action, snapshot), Delivers(c, wire))])
  }

  /** The in-flight ids of other channels. */
  function DropInflight(inflight: map<int, string>, channel: string): (others: map<int, string>)
    ensures forall id :: id in others <==> id in inflight && inflight[id] != channel
    ensures forall id :: id in others ==> others[id] == inflight[id]
  {
    map id | id in inflight && inflight[id] != channel :: inflight[id]
  }

  lemma {:induction false} DropOne(inflight: map<int, string>, ch: string, id: int)
    requires id in inflight && inflight[id] == ch
    requires forall i :: i in inflight && inflight[i] == ch ==> i == id
    ensures inflight - {id} == DropInflight(inflight, ch)
  {
    forall i ensures i in inflight - {id} <==> i in DropInflight(inflight, ch) {
    }
  }

  lemma {:induction false} DropNone(inflight: map<int, string>, ch: string)
    requires forall i :: i in inflight ==> inflight[i] != ch
    ensures inflight == DropInflight(inflight, ch)
  {
    forall i ensures i in inflight <==> i in DropInflight(inflight, ch) {
    }
  }

  lemma {:induction false} PutAway<V>(m: map<string, V>, k: string, v: V)
    requires k !in m
    ensures m[k := v] - {k} == m
  {
    forall x ensures x in m[k := v] - {k} <==> x in m {
    }
  }

  lemma {:induction false} PutTwice<K, V>(m: map<K, V>, k: K, v: V, w: V)
    ensures m[k := v][k := w] == m[k := w]
  {
  }

  lemma {:induction false} PutSame<K, V>(m: map<K, V>, k: K)
    requires k in m
    ensures m[k := m[k]] == m
  {
  }

  predicate IsInflight(c: Client, channel: string) {
    exists id :: id in c.inflight && c.inflight[id] == channel
  }

  function Forget(c: Client, channel: string): Client {
    c.(channels := c.channels - {channel}, inflight := DropInflight(c.inflight, channel))
  }

  // ---------------------------------------------------------------------
  // Calls, channel by channel
  // ---------------------------------------------------------------------

  datatype Request =
    | SubscribeTo(wanted: Option<Tickers>, snapshot: bool)
    | UnsubscribeFrom
    | Add(tickers: Tickers, snapshot: bool)
    | Remove(tickers: Tickers)
    | Snapshot(tickers: Tickers)

  function SubscribeOne(c: Client, ch: string, wanted: Option<Tickers>, snapshot: bool, wire: Wire): (Client, Status) {
    if ch in c.channels then (c, InvalidArgument)
    else
      var markets := if wanted.Some? then wanted.value else {};
      var d := SendSubscribe(c.(channels := c.channels[ch := NewChannel(markets, wanted.None?)]),
                             ch, wanted, snapshot, wire);
      if Delivers(c, wire) then (d, Ok) else (Forget(d, ch), SendFailed)
  }

  function UnsubscribeOne(c: Client, ch: string, wire: Wire): (Client, Status) {
    if ch !in c.channels then (c, Ok)
    else if c.channels[ch].sid.Some? then
      var sid := c.channels[ch].sid.value;
      var d := SendUnsubscribe(c, sid, wire);
      if Delivers(c, wire) then (d.(sids := d.sids - {sid}, channels := d.channels - {ch}), Ok)
      else (d, SendFailed)
    else (Forget(c, ch), Ok)
  }

  function AddOne(c: Client, ch: string, tickers: Tickers, snapshot: bool, wire: Wire): (Client, Status) {
    var state := if ch in c.channels then Scope(c.channels[ch]) else NewChannel({}, false);
    AddKnown(c.(channels := c.channels[ch := state]), ch, ch in c.channels, tickers, snapshot, wire)
  }

  /** AddMarkets once the channel is there and ticker-scoped; `known` tells
      whether it was there before the call. */
  function AddKnown(c: Client, ch: string, known: bool, tickers: Tickers, snapshot: bool, wire: Wire): (Client, Status)
    requires ch in c.channels
  {
    var state := c.channels[ch];
    var absent := tickers - state.markets;
    if absent == {} then (c, Ok)
    else if state.sid.Some? then
      var d := SendUpdate(c, state.sid.value, absent, AddMarkets, snapshot, wire);
      if Delivers(c, wire) then (d.(channels := d.channels[ch := AddLocally(state, absent)]), Ok) else (d, SendFailed)
    else if IsInflight(c, ch) then (c.(channels := c.channels[ch := Queue(state, absent)]), Ok)
    else
      var d := SendSubscribe(c, ch, Some(absent), snapshot, wire);
      if Delivers(c, wire) then (d.(channels := d.channels[ch := AddLocally(state, absent)]), Ok)
      else if known then (d, SendFailed)
      else (Forget(d, ch), SendFailed)
  }

  function RemoveOne(c: Client, ch: string, tickers: Tickers, wire: Wire): (Client, Status) {
    if ch !in c.channels || c.channels[ch].sid.None? then (c, Ok)
    else
      var state := Scope(c.channels[ch]);
      var scoped := c.(channels := c.channels[ch := state]);
      var d := SendUpdate(scoped, state.sid.value, tickers, DeleteMarkets, false, wire);
      if Delivers(c, wire) then (d.(channels := d.channels[ch := RemoveLocally(state, tickers)]), Ok)
      else (d, SendFailed)
  }

  /** RemoveMarkets on a live SID, in one expression. */
  lemma {:induction false} RemoveSends(c: Client, ch: string, tickers: Tickers, wire: Wire)
    requires ch in c.channels && c.channels[ch].sid.Some?
    ensures var id, ok, state := c.msgID + 1, Delivers(c, wire), Scope(c.channels[ch]);
            RemoveOne(c, ch, tickers, wire)
            == (c.(msgID := id,
                   channels := c.channels[ch := if ok then RemoveLocally(state, tickers) else state],
                   log := c.log + [Sent(Update(id, state.sid.value, tickers, DeleteMarkets, false), ok)]),
                if ok then Ok else SendFailed)
  {
    var state := Scope(c.channels[ch]);
    var scoped := c.(channels := c.channels[ch := state]);
    assert Delivers(scoped, wire) <==> Delivers(c, wire);
    PutTwice(c.channels, ch, state, RemoveLocally(state, tickers));
  }

  function SnapshotOne(c: Client, ch: string, tickers: Tickers, wire: Wire): (Client, Status) {
    if ch !in c.channels || c.channels[ch].sid.None? then (c, Ok)
    else
      var d := SendUpdate(c, c.channels[ch].sid.value, tickers, GetSnapshot, false, wire);
      (d, if Delivers(c, wire) then Ok else SendFailed)
  }

  function RequestOne(c: Client, ch: string, r: Request, wire: Wire): (Client, Status) {
    match r
    case SubscribeTo(wanted, snapshot) => SubscribeOne(c, ch, wanted, snapshot, wire)
    case UnsubscribeFrom => UnsubscribeOne(c, ch, wire)
    case Add(tickers, snapshot) => AddOne(c, ch, tickers, snapshot, wire)
    case Remove(tickers) => RemoveOne(c, ch, tickers, wire)
    case Snapshot(tickers) => SnapshotOne(c, ch, tickers, wire)
  }

  /** The channels of a call in turn, up to the first error. */
  function RequestEach(c: Client, channels: seq<string>, r: Request, wire: Wire): (Client, Status)
    decreases |channels|
  {
    if channels == [] then (c, Ok)
    else
      var (d, status) := RequestOne(c, channels[0], r, wire);
      if status.Ok? then RequestEach(d, channels[1..], r, wire) else (d, status)
  }

  /** Arguments every call rejects before it looks at any state. */
  predicate BadArguments(channels: seq<string>, r: Request) {
    channels == []
    || match r
       case SubscribeTo(wanted, _) => wanted == Some({})
       case UnsubscribeFrom => false
       case Add(tickers, _) => tickers == {}
       case Remove(tickers) => tickers == {}
       case Snapshot(tickers) => tickers == {}
  }

  function Call(c: Client, channels: seq<string>, r: Request, wire: Wire): (Client, Status) {
    if BadArguments(channels, r) then (c, InvalidArgument) else RequestEach(c, channels, r, wire)
  }

  // ---------------------------------------------------------------------
  // Frames
  // ---------------------------------------------------------------------

  /** Sends the tickers that were queued while the SID was unknown. */
  function Flush(c: Client, sid: int, tickers: Tickers, wire: Wire): Client {
    if tickers == {} then c
    else
      var d := SendUpdate(c, sid, tickers, AddMarkets, false, wire);
      d.(forceReconnect := c.forceReconnect || !Delivers(c, wire))
  }

  function HandleSubscribed(c: Client, id: int, body: Option<int>, wire: Wire): Client {
    if id !in c.inflight then c
    else
      var ch, d := c.inflight[id], c.(inflight := c.inflight - {id});
      if body.None? || ch !in c.channels then d
      else
        var sid := body.value;
        Flush(d.(channels := d.channels[ch := Bind(d.channels[ch], sid)], sids := d.sids[sid := ch]),
              sid, c.channels[ch].pending, wire)
  }

  /** The SID belongs to a channel the client has. (Entries of `sids` always do,
      see WsIndex; asking keeps the functions below total.) */
  predicate Knows(c: Client, sid: int) {
    sid in c.sids && c.sids[sid] in c.channels
  }

  /** Sequence bookkeeping shared by acknowledgements and data. */
  function Advance(c: Client, sid: int, seqNo: int): Client
    requires Knows(c, sid)
  {
    var ch := c.sids[sid];
    c.(forceReconnect := c.forceReconnect || IsGap(c.channels[ch], seqNo),
       channels := c.channels[ch := c.channels[ch].(seqNo := seqNo)])
  }

  function HandleFrame(c: Client, f: Frame, wire: Wire): Client {
    match f
    case Subscribed(id, body) => HandleSubscribed(c, id, body, wire)
    case Acknowledged(sid, seqNo, tickers) =>
      if !Knows(c, sid) then c
      else
        var d, ch := Advance(c, sid, seqNo), c.sids[sid];
        d.(channels := d.channels[ch := Reconcile(d.channels[ch], tickers)])
    case Unsubscribed(sid) => c.(sids := c.sids - {sid})
    case Data(sid, seqNo, known) => if !known || !Knows(c, sid) then c else Advance(c, sid, seqNo)
    case Ignored => c
  }

  // ---------------------------------------------------------------------
  // Connection
  // ---------------------------------------------------------------------

  function HandleConnectionLoss(c: Client): Client {
    c.(sids := map[], inflight := map[], connected := false,
       channels := map ch | ch in c.channels :: Detached(c.channels[ch]))
  }

  function Connect(c: Client): Client {
    c.(connected := true)
  }

  /** Resubscribes the channels in the given order (the program's is the
      arbitrary one of a map), up to the first failed write. */
  function RecoverSubscriptions(c: Client, order: seq<string>, wire: Wire): (Client, bool)
    requires forall ch :: ch in order ==> ch in c.channels
    decreases |order|
  {
    if order == [] then (c, true)
    else
      var state := c.channels[order[0]];
      if !Recoverable(state) then RecoverSubscriptions(c, order[1..], wire)
      else
        var d := SendSubscribe(c, order[0], WantedOf(state), false, wire);
        if Delivers(c, wire) then RecoverSubscriptions(d, order[1..], wire) else (d, false)
  }
}
