/** The read loop and sequence numbers (ws_client.go, readLoop, handleOK and
    handleDataMessage): within one run of the loop the frames accepted on a SID
    carry consecutive numbers. */
module WsSequence {
  import opened Basics
  import opened WsModel
  import opened WsIndex

  /** What happens during the loop: a frame arrives, or between two frames the
      application makes a call. */
  datatype Turn = Arrives(frame: Frame) | Between(channels: seq<string>, request: Request)

  function Take(c: Client, turn: Turn, wire: Wire): Client {
    match turn
    case Arrives(frame) => HandleFrame(c, frame, wire)
    case Between(channels, request) => Call(c, channels, request, wire).0
  }

  /** The loop ends after the frame that asks for a reconnect. */
  predicate Ends(c: Client, turn: Turn, wire: Wire) {
    turn.Arrives? && Take(c, turn, wire).forceReconnect
  }

  /** How the loop ends: on a gap (or failed flush), or because reading fails
      when the turns run out. */
  function ReadLoop(c: Client, turns: seq<Turn>, wire: Wire): (Client, bool)
    decreases |turns|
  {
    if turns == [] then (c, false)
    else if Ends(c, turns[0], wire) then (Take(c, turns[0], wire).(forceReconnect := false), true)
    else ReadLoop(Take(c, turns[0], wire), turns[1..], wire)
  }

  /** A numbered frame accepted on a SID. */
  datatype Mark = Mark(sid: int, seqNo: int)

  function Accepted(c: Client, turn: Turn): seq<Mark> {
    match turn
    case Arrives(Acknowledged(sid, seqNo, _)) => if Knows(c, sid) then [Mark(sid, seqNo)] else []
    case Arrives(Data(sid, seqNo, known)) => if known && Knows(c, sid) then [Mark(sid, seqNo)] else []
    case _ => []
  }

  /** The frames accepted by the loop, except the one it ends on. */
  function AcceptedBeforeEnd(c: Client, turns: seq<Turn>, wire: Wire): seq<Mark>
    decreases |turns|
  {
    if turns == [] || Ends(c, turns[0], wire) then []
    else Accepted(c, turns[0]) + AcceptedBeforeEnd(Take(c, turns[0], wire), turns[1..], wire)
  }

  /** The number last accepted on each SID. */
  type Track = map<int, int>

  predicate Follows(track: Track, m: Mark) {
    m.sid in track ==> m.seqNo == track[m.sid] + 1
  }

  /** Every frame carries the number after the last one on its SID. */
  predicate Contiguous(track: Track, marks: seq<Mark>)
    decreases |marks|
  {
    marks != [] ==>
      Follows(track, marks[0]) && Contiguous(track[marks[0].sid := marks[0].seqNo], marks[1..])
  }

  /** In terms of positions: no gap and no duplicate between neighbours on a SID. */
  lemma {:induction false} ContiguousMeaning(track: Track, marks: seq<Mark>, i: nat, j: nat)
    requires Contiguous(track, marks) && i < j < |marks| && marks[i].sid == marks[j].sid
    requires forall k :: i < k < j ==> marks[k].sid != marks[i].sid
    ensures marks[j].seqNo == marks[i].seqNo + 1
    decreases i
  {
    var next := track[marks[0].sid := marks[0].seqNo];
    if i > 0 {
      assert forall k :: i - 1 < k < j - 1 ==> marks[1..][k] == marks[k + 1];
      ContiguousMeaning(next, marks[1..], i - 1, j - 1);
    } else {
      assert forall k :: 0 <= k < j - 1 ==> marks[1..][k] == marks[k + 1];
      FirstOnSid(next, marks[1..], j - 1);
    }
  }

  lemma {:induction false} FirstOnSid(track: Track, marks: seq<Mark>, j: nat)
    requires Contiguous(track, marks) && j < |marks| && marks[j].sid in track
    requires forall k :: 0 <= k < j ==> marks[k].sid != marks[j].sid
    ensures marks[j].seqNo == track[marks[j].sid] + 1
    decreases j
  {
    if j > 0 {
      assert forall k :: 0 <= k < j - 1 ==> marks[1..][k] == marks[k + 1];
      FirstOnSid(track[marks[0].sid := marks[0].seqNo], marks[1..], j - 1);
    }
  }

  // ---------------------------------------------------------------------
  // The counters kept in the channels
  // ---------------------------------------------------------------------

  function Last(track: Track, sid: int): int {
    if sid in track then track[sid] else 0
  }

  /** The channel of each SID remembers the number last accepted on it; a channel
      without SID remembers none. */
  ghost predicate Tracks(c: Client, track: Track) {
    && (forall s :: s in c.sids && c.sids[s] in c.channels ==> c.channels[c.sids[s]].seqNo == Last(track, s))
    && (forall ch :: ch in c.channels && c.channels[ch].sid.None? ==> c.channels[ch].seqNo == 0)
    && (forall s :: s in track ==> track[s] > 0)
  }

  /** SIDs in use, now or earlier on this connection. */
  ghost predicate CoversUsed(c: Client, track: Track, used: set<int>) {
    c.sids.Keys <= used && track.Keys <= used
  }

  /** Assumptions on the server: positive numbers, SIDs granted once per
      connection, and `unsubscribed` only for SIDs the client has let go. */
  ghost predicate FairTurn(c: Client, used: set<int>, turn: Turn) {
    match turn
    case Arrives(Subscribed(_, body)) => body.Some? ==> body.value !in used
    case Arrives(Unsubscribed(sid)) => sid !in c.sids
    case Arrives(Acknowledged(_, seqNo, _)) => seqNo > 0
    case Arrives(Data(_, seqNo, _)) => seqNo > 0
    case _ => true
  }

  function UsedAfter(used: set<int>, turn: Turn): set<int> {
    match turn
    case Arrives(Subscribed(_, body)) => if body.Some? then used + {body.value} else used
    case _ => used
  }

  ghost predicate FairTurns(c: Client, used: set<int>, turns: seq<Turn>, wire: Wire)
    decreases |turns|
  {
    turns != [] ==>
      && FairTurn(c, used, turns[0])
      && FairTurns(Take(c, turns[0], wire), UsedAfter(used, turns[0]), turns[1..], wire)
  }

  function TrackAfter(track: Track, marks: seq<Mark>): Track {
    if marks == [] then track else track[marks[0].sid := marks[0].seqNo]
  }

  /** A call leaves the counters of the SIDs it keeps as they are. */
  ghost predicate KeepsCounters(c: Client, d: Client) {
    && d.forceReconnect == c.forceReconnect
    && (forall s :: s in d.sids && d.sids[s] in d.channels ==>
          s in c.sids && d.sids[s] == c.sids[s] && c.sids[s] in c.channels
          && d.channels[d.sids[s]].seqNo == c.channels[d.sids[s]].seqNo)
    && (forall ch :: ch in d.channels ==>
          if ch in c.channels
          then d.channels[ch].sid == c.channels[ch].sid && d.channels[ch].seqNo == c.channels[ch].seqNo
          else d.channels[ch].sid.None? && d.channels[ch].seqNo == 0)
    && d.sids.Keys <= c.sids.Keys
  }

  lemma {:induction false} SubscribeKeepsCounters(
    c: Client, ch: string, wanted: Option<Tickers>, snapshot: bool, wire: Wire)
    requires Indexed(c)
    ensures KeepsCounters(c, SubscribeOne(c, ch, wanted, snapshot, wire).0)
  {
    var d := SubscribeOne(c, ch, wanted, snapshot, wire).0;
    if ch !in c.channels {
      if Delivers(c, wire) {
        PutKeepsCounters(c, d, ch, NewChannel(if wanted.Some? then wanted.value else {}, wanted.None?));
      } else {
        assert d.channels == c.channels && d.sids == c.sids;
      }
    }
  }

  lemma {:induction false} UnsubscribeKeepsCounters(c: Client, ch: string, wire: Wire)
    requires Indexed(c)
    ensures KeepsCounters(c, UnsubscribeOne(c, ch, wire).0)
  {
  }

  lemma {:induction false} PutKeepsCounters(c: Client, d: Client, ch: string, state: Channel)
    requires Indexed(c) && d.sids == c.sids && d.forceReconnect == c.forceReconnect
    requires d.channels == c.channels[ch := state]
    requires if ch in c.channels then state.sid == c.channels[ch].sid && state.seqNo == c.channels[ch].seqNo
             else state.sid.None? && state.seqNo == 0
    ensures KeepsCounters(c, d)
  {
  }

  lemma {:induction false} AddKeepsCounters(c: Client, ch: string, tickers: Tickers, snapshot: bool, wire: Wire)
    requires Indexed(c)
    ensures KeepsCounters(c, AddOne(c, ch, tickers, snapshot, wire).0)
  {
    hide Indexed, KeepsCounters, AddKnown;
    var state := if ch in c.channels then Scope(c.channels[ch]) else NewChannel({}, false);
    var e, d := c.(channels := c.channels[ch := state]), AddOne(c, ch, tickers, snapshot, wire).0;
    AddKnownPuts(e, ch, ch in c.channels, tickers, snapshot, wire);
    if ch in d.channels {
      PutTwice(c.channels, ch, state, d.channels[ch]);
      PutKeepsCounters(c, d, ch, d.channels[ch]);
    } else {
      PutAway(c.channels, ch, state);
      SameKeepsCounters(c, d);
    }
  }

  /** At most the one channel is replaced, keeping its SID and counter, or, when it
      is new, dropped again. */
  predicate PutsOnly(c: Client, d: Client, ch: string)
    requires ch in c.channels
  {
    && d.sids == c.sids && d.forceReconnect == c.forceReconnect
    && if ch in d.channels
       then d.channels == c.channels[ch := d.channels[ch]]
            && d.channels[ch].sid == c.channels[ch].sid && d.channels[ch].seqNo == c.channels[ch].seqNo
       else d.channels == c.channels - {ch}
  }

  lemma {:induction false} Puts(c: Client, d: Client, ch: string, state: Channel)
    requires ch in c.channels && d.sids == c.sids && d.forceReconnect == c.forceReconnect
    requires d.channels == c.channels[ch := state] && state.sid == c.channels[ch].sid
             && state.seqNo == c.channels[ch].seqNo
    ensures PutsOnly(c, d, ch)
  {
  }

  lemma {:induction false} Dropped(c: Client, d: Client, ch: string)
    requires ch in c.channels && d.sids == c.sids && d.forceReconnect == c.forceReconnect
    requires d.channels == c.channels - {ch}
    ensures PutsOnly(c, d, ch)
  {
  }

  lemma {:induction false} AddKnownPuts(
    c: Client, ch: string, known: bool, tickers: Tickers, snapshot: bool, wire: Wire)
    requires ch in c.channels
    ensures var d := AddKnown(c, ch, known, tickers, snapshot, wire).0;
            PutsOnly(c, d, ch) && (known ==> ch in d.channels)
  {
    hide IsInflight, Delivers, DropInflight, PutsOnly;
    var (d, status) := AddKnown(c, ch, known, tickers, snapshot, wire);
    var state, absent := c.channels[ch], tickers - c.channels[ch].markets;
    PutSame(c.channels, ch);
    if absent != {} && (state.sid.Some? || !IsInflight(c, ch)) && status.Ok? {
      Puts(c, d, ch, AddLocally(state, absent));
    } else if absent != {} && state.sid.None? && IsInflight(c, ch) {
      Puts(c, d, ch, Queue(state, absent));
    } else if absent == {} || state.sid.Some? || known {
      Puts(c, d, ch, state);
    } else {
      Dropped(c, d, ch);
    }
  }

  lemma {:induction false} SameKeepsCounters(c: Client, d: Client)
    requires d.sids == c.sids && d.channels == c.channels && d.forceReconnect == c.forceReconnect
    requires Indexed(c)
    ensures KeepsCounters(c, d)
  {
  }

  lemma {:induction false} RemoveKeepsCounters(c: Client, ch: string, tickers: Tickers, wire: Wire)
    requires Indexed(c)
    ensures KeepsCounters(c, RemoveOne(c, ch, tickers, wire).0)
  {
    var d := RemoveOne(c, ch, tickers, wire).0;
    if ch in c.channels && c.channels[ch].sid.Some? {
      var state := Scope(c.channels[ch]);
      PutKeepsCounters(c, d, ch, if Delivers(c, wire) then RemoveLocally(state, tickers) else state);
    }
  }

  lemma {:induction false} SnapshotKeepsCounters(c: Client, ch: string, tickers: Tickers, wire: Wire)
    requires Indexed(c)
    ensures KeepsCounters(c, SnapshotOne(c, ch, tickers, wire).0)
  {
  }

  lemma {:induction false} RequestKeepsCounters(c: Client, ch: string, r: Request, wire: Wire)
    requires Indexed(c)
    ensures KeepsCounters(c, RequestOne(c, ch, r, wire).0)
  {
    hide Indexed, KeepsCounters, SubscribeOne, UnsubscribeOne, AddOne, RemoveOne, SnapshotOne;
    match r
    case SubscribeTo(wanted, snapshot) => SubscribeKeepsCounters(c, ch, wanted, snapshot, wire);
    case UnsubscribeFrom => UnsubscribeKeepsCounters(c, ch, wire);
    case Add(tickers, snapshot) => AddKeepsCounters(c, ch, tickers, snapshot, wire);
    case Remove(tickers) => RemoveKeepsCounters(c, ch, tickers, wire);
    case Snapshot(tickers) => SnapshotKeepsCounters(c, ch, tickers, wire);
  }

  lemma {:induction false} RequestsKeepCounters(c: Client, track: Track, channels: seq<string>, r: Request, wire: Wire)
    requires Indexed(c) && Tracks(c, track)
    ensures var d := RequestEach(c, channels, r, wire).0;
            Tracks(d, track) && d.sids.Keys <= c.sids.Keys && d.forceReconnect == c.forceReconnect
    decreases |channels|
  {
    if channels != [] {
      RequestKeepsCounters(c, channels[0], r, wire);
      RequestsKeepIndex(c, [channels[0]], r, wire);
      var (d, status) := RequestOne(c, channels[0], r, wire);
      assert RequestEach(c, [channels[0]], r, wire).0 == d by {
        assert [channels[0]][1..] == [];
      }
      if status.Ok? {
        RequestsKeepCounters(d, track, channels[1..], r, wire);
      }
    }
  }

  /** A gap is declared exactly when a frame does not follow the last one. */
  lemma {:induction false} GapIff(c: Client, track: Track, turn: Turn, m: Mark, wire: Wire)
    requires Indexed(c) && Tracks(c, track) && !c.forceReconnect && Accepted(c, turn) == [m]
    ensures Ends(c, turn, wire) <==> !Follows(track, m)
  {
    assert c.sids[m.sid] in c.channels;
  }

  lemma {:induction false} FrameTracks(c: Client, track: Track, used: set<int>, frame: Frame, wire: Wire)
    requires Indexed(c) && Tracks(c, track) && CoversUsed(c, track, used)
    requires FairTurn(c, used, Arrives(frame))
    ensures var d, t := HandleFrame(c, frame, wire), TrackAfter(track, Accepted(c, Arrives(frame)));
            Indexed(d) && Tracks(d, t) && CoversUsed(d, t, UsedAfter(used, Arrives(frame)))
  {
    FrameKeepsIndex(c, frame, wire);
    var d := HandleFrame(c, frame, wire);
    match frame {
      case Subscribed(id, body) =>
        if id in c.inflight && body.Some? {
          var ch := c.inflight[id];
          assert d.channels == c.channels[ch := Bind(c.channels[ch], body.value)];
          assert d.sids == c.sids[body.value := ch];
        }
      case Acknowledged(sid, seqNo, tickers) =>
        if Knows(c, sid) {
          AdvanceTracks(c, d, track, sid, seqNo);
        }
      case Unsubscribed(sid) =>
      case Data(sid, seqNo, known) =>
        if known && Knows(c, sid) {
          AdvanceTracks(c, d, track, sid, seqNo);
        }
      case Ignored =>
    }
  }

  lemma {:induction false} AdvanceTracks(c: Client, d: Client, track: Track, sid: int, seqNo: int)
    requires Indexed(c) && Tracks(c, track) && Knows(c, sid) && seqNo > 0
    requires d.sids == c.sids && d.channels.Keys == c.channels.Keys
    requires forall ch :: ch in c.channels ==> d.channels[ch].sid == c.channels[ch].sid
    requires forall ch :: ch in c.channels ==>
               d.channels[ch].seqNo == if ch == c.sids[sid] then seqNo else c.channels[ch].seqNo
    ensures Tracks(d, track[sid := seqNo])
  {
    forall s | s in d.sids && d.sids[s] in d.channels
      ensures d.channels[d.sids[s]].seqNo == Last(track[sid := seqNo], s)
    {
      assert c.channels[c.sids[s]].sid == Some(s);
    }
  }

  lemma {:induction false} TurnTracks(c: Client, track: Track, used: set<int>, turn: Turn, wire: Wire)
    requires Indexed(c) && Tracks(c, track) && CoversUsed(c, track, used) && FairTurn(c, used, turn)
    ensures var d, t := Take(c, turn, wire), TrackAfter(track, Accepted(c, turn));
      && Indexed(d) && Tracks(d, t) && CoversUsed(d, t, UsedAfter(used, turn))
      && (c.forceReconnect ==> d.forceReconnect)
      && (d.forceReconnect ==> c.forceReconnect || turn.Arrives?)
  {
    hide Indexed, Tracks, FairTurn;
    match turn
    case Arrives(frame) =>
      FrameTracks(c, track, used, frame, wire);
      FrameKeepsFlag(c, frame, wire);
    case Between(channels, request) =>
      RequestsKeepIndex(c, channels, request, wire);
      RequestsKeepCounters(c, track, channels, request, wire);
  }

  lemma {:induction false} FrameKeepsFlag(c: Client, frame: Frame, wire: Wire)
    ensures c.forceReconnect ==> HandleFrame(c, frame, wire).forceReconnect
  {
  }

  /** Sequence contiguity: in one run of the read loop, whatever calls the
      application makes meanwhile, the frames accepted on each SID carry
      consecutive numbers, going on from those accepted before; only the frame
      the loop ends on may break the order. */
  lemma {:induction false} ReadLoopIsContiguous(c: Client, track: Track, used: set<int>, turns: seq<Turn>, wire: Wire)
    requires Indexed(c) && Tracks(c, track) && CoversUsed(c, track, used)
    requires FairTurns(c, used, turns, wire)
    ensures Contiguous(track, AcceptedBeforeEnd(c, turns, wire))
    decreases |turns|
  {
    if turns != [] && !Ends(c, turns[0], wire) {
      var turn, rest := turns[0], turns[1..];
      var d, marks := Take(c, turn, wire), Accepted(c, turn);
      TurnTracks(c, track, used, turn, wire);
      ReadLoopIsContiguous(d, TrackAfter(track, marks), UsedAfter(used, turn), rest, wire);
      if marks != [] {
        var later := AcceptedBeforeEnd(d, rest, wire);
        GapIff(c, track, turn, marks[0], wire);
        assert (marks + later)[1..] == later;
      } else {
        assert marks + AcceptedBeforeEnd(d, rest, wire) == AcceptedBeforeEnd(d, rest, wire);
      }
    }
  }

  // ---------------------------------------------------------------------
  // One connection after the other
  // ---------------------------------------------------------------------

  /** A client about to read a new connection: no SID, and every channel counts
      from the start. */
  ghost predicate ReadsAfresh(c: Client) {
    && Indexed(c) && c.sids == map[] && !c.forceReconnect
    && forall ch :: ch in c.channels ==> c.channels[ch].sid.None? && c.channels[ch].seqNo == 0
  }

  /** What happens on one connection, and how the loop goes on after losing it. */
  datatype Session = Session(turns: seq<Turn>, firstDial: bool, order: seq<string>)

  /** SIDs are new on each connection, and the recovery goes through the channels. */
  ghost predicate FairSession(c: Client, s: Session, wire: Wire) {
    FairTurns(c, {}, s.turns, wire) && Enumerates(s.order, ReadLoop(c, s.turns, wire).0)
  }

  ghost function NextSession(c: Client, s: Session, wire: Wire): Client
    requires FairSession(c, s, wire)
  {
    Resume(ReadLoop(c, s.turns, wire).0, s.firstDial, s.order, wire)
  }

  ghost predicate FairSessions(c: Client, sessions: seq<Session>, wire: Wire)
    decreases |sessions|
  {
    sessions != [] ==>
      FairSession(c, sessions[0], wire) && FairSessions(NextSession(c, sessions[0], wire), sessions[1..], wire)
  }

  /** The client when session `k` begins. */
  ghost function Opening(c: Client, sessions: seq<Session>, wire: Wire, k: nat): Client
    requires FairSessions(c, sessions, wire) && k <= |sessions|
    decreases k
  {
    if k == 0 then c else Opening(NextSession(c, sessions[0], wire), sessions[1..], wire, k - 1)
  }

  lemma {:induction false} ReadLoopKeeps(c: Client, track: Track, used: set<int>, turns: seq<Turn>, wire: Wire)
    requires Indexed(c) && Tracks(c, track) && CoversUsed(c, track, used) && !c.forceReconnect
    requires FairTurns(c, used, turns, wire)
    ensures Indexed(ReadLoop(c, turns, wire).0) && !ReadLoop(c, turns, wire).0.forceReconnect
    decreases |turns|
  {
    if turns != [] {
      var turn, d := turns[0], Take(c, turns[0], wire);
      TurnTracks(c, track, used, turn, wire);
      if !Ends(c, turn, wire) {
        ReadLoopKeeps(d, TrackAfter(track, Accepted(c, turn)), UsedAfter(used, turn), turns[1..], wire);
      }
    }
  }

  /** Losing a connection and making the next one starts all counters afresh; a
      recovery follows the first dial only. */
  lemma {:induction false} ResumeReadsAfresh(c: Client, firstDial: bool, order: seq<string>, wire: Wire)
    requires Indexed(c) && !c.forceReconnect && Enumerates(order, c)
    ensures var d := Resume(c, firstDial, order, wire);
      && ReadsAfresh(d) && d.connected && d.channels.Keys == c.channels.Keys
      && (!firstDial ==> d.log == c.log && d.inflight == map[])
  {
    hide Indexed, HandleConnectionLoss, Connect, RecoverSubscriptions;
    LostIsEmpty(c);
    ResumeKeepsIndex(c, firstDial, order, wire);
    RecoverOnlySends(Connect(HandleConnectionLoss(c)), order, wire);
  }

  /** On every connection, from its first frame on, accepted frames carry
      consecutive numbers on each SID, however many connections were lost before. */
  lemma {:induction false} SessionsAreContiguous(c: Client, sessions: seq<Session>, wire: Wire, k: nat)
    requires ReadsAfresh(c) && FairSessions(c, sessions, wire) && k <= |sessions|
    ensures ReadsAfresh(Opening(c, sessions, wire, k))
    ensures k < |sessions| ==>
              Contiguous(map[], AcceptedBeforeEnd(Opening(c, sessions, wire, k), sessions[k].turns, wire))
    decreases k
  {
    if k == 0 {
      if sessions != [] {
        ReadLoopIsContiguous(c, map[], {}, sessions[0].turns, wire);
      }
    } else {
      var s := sessions[0];
      ReadLoopKeeps(c, map[], {}, s.turns, wire);
      ResumeReadsAfresh(ReadLoop(c, s.turns, wire).0, s.firstDial, s.order, wire);
      SessionsAreContiguous(NextSession(c, s, wire), sessions[1..], wire, k - 1);
    }
  }

  /** The numbered frames accepted in turns of which none ends the loop, and the
      client after them. */
  function Through(c: Client, turns: seq<Turn>, wire: Wire): (Client, seq<Mark>)
    decreases |turns|
  {
    if turns == [] then (c, [])
    else
      var (d, marks) := Through(Take(c, turns[0], wire), turns[1..], wire);
      (d, Accepted(c, turns[0]) + marks)
  }

  /** No turn of the list ends the loop. */
  predicate NoneEnds(c: Client, turns: seq<Turn>, wire: Wire)
    decreases |turns|
  {
    turns != [] ==> !Ends(c, turns[0], wire) && NoneEnds(Take(c, turns[0], wire), turns[1..], wire)
  }

  /** The number last accepted on a SID, or the one known before. */
  function LastOf(track: Track, marks: seq<Mark>): Track
    decreases |marks|
  {
    if marks == [] then track else LastOf(track[marks[0].sid := marks[0].seqNo], marks[1..])
  }

  lemma {:induction false} ThroughTracks(
    c: Client, track: Track, used: set<int>, turns: seq<Turn>, turn: Turn, wire: Wire)
    returns (later: set<int>)
    requires Indexed(c) && Tracks(c, track) && CoversUsed(c, track, used) && !c.forceReconnect
    requires FairTurns(c, used, turns + [turn], wire) && NoneEnds(c, turns, wire)
    ensures var (d, marks) := Through(c, turns, wire);
      && Indexed(d) && Tracks(d, LastOf(track, marks)) && !d.forceReconnect && FairTurn(d, later, turn)
    decreases |turns|
  {
    if turns == [] {
      assert (turns + [turn])[0] == turn;
      later := used;
    } else {
      var d, marks := Take(c, turns[0], wire), Accepted(c, turns[0]);
      assert (turns + [turn])[0] == turns[0] && (turns + [turn])[1..] == turns[1..] + [turn];
      TurnTracks(c, track, used, turns[0], wire);
      later := ThroughTracks(d, TrackAfter(track, marks), UsedAfter(used, turns[0]), turns[1..], turn, wire);
      var more := Through(d, turns[1..], wire).1;
      assert marks == [] ==> marks + more == more;
      assert marks != [] ==> marks == [marks[0]] && (marks + more)[1..] == more;
    }
  }

  lemma {:induction false} LastOfNone(track: Track, marks: seq<Mark>, sid: int)
    requires forall j :: 0 <= j < |marks| ==> marks[j].sid != sid
    ensures sid in LastOf(track, marks) <==> sid in track
    ensures sid in track ==> LastOf(track, marks)[sid] == track[sid]
    decreases |marks|
  {
    if marks != [] {
      LastOfNone(track[marks[0].sid := marks[0].seqNo], marks[1..], sid);
    }
  }

  lemma {:induction false} LastOfAt(track: Track, marks: seq<Mark>, j: nat)
    requires j < |marks| && forall i :: j < i < |marks| ==> marks[i].sid != marks[j].sid
    ensures var sid := marks[j].sid; sid in LastOf(track, marks) && LastOf(track, marks)[sid] == marks[j].seqNo
    decreases |marks|
  {
    var next, rest := track[marks[0].sid := marks[0].seqNo], marks[1..];
    if j == 0 {
      assert forall i :: 0 <= i < |rest| ==> rest[i] == marks[i + 1];
      LastOfNone(next, rest, marks[0].sid);
    } else {
      assert forall i :: 0 <= i < |rest| ==> rest[i] == marks[i + 1];
      LastOfAt(next, rest, j - 1);
    }
  }

  /** When the loop ends on a numbered frame: exactly if an earlier frame of this
      connection was accepted on its SID and its number is not the next one. The
      first frame of a SID is always accepted, whatever its number. */
  lemma {:induction false} EndsOnGapOnly(c: Client, turns: seq<Turn>, turn: Turn, m: Mark, wire: Wire)
    requires ReadsAfresh(c) && FairTurns(c, {}, turns + [turn], wire) && NoneEnds(c, turns, wire)
    requires Accepted(Through(c, turns, wire).0, turn) == [m]
    ensures var (d, marks) := Through(c, turns, wire);
      && ((forall j :: 0 <= j < |marks| ==> marks[j].sid != m.sid) ==> !Ends(d, turn, wire))
      && forall j :: 0 <= j < |marks| && marks[j].sid == m.sid
                     && (forall i :: j < i < |marks| ==> marks[i].sid != m.sid)
           ==> (Ends(d, turn, wire) <==> m.seqNo != marks[j].seqNo + 1)
  {
    var later := ThroughTracks(c, map[], {}, turns, turn, wire);
    var (d, marks) := Through(c, turns, wire);
    GapIff(d, LastOf(map[], marks), turn, m, wire);
    if forall j :: 0 <= j < |marks| ==> marks[j].sid != m.sid {
      LastOfNone(map[], marks, m.sid);
    }
    forall j | 0 <= j < |marks| && marks[j].sid == m.sid && (forall i :: j < i < |marks| ==> marks[i].sid != m.sid)
      ensures Ends(d, turn, wire) <==> m.seqNo != marks[j].seqNo + 1
    {
      LastOfAt(map[], marks, j);
    }
  }

  /** The loop goes through the turns that do not end it, stops at the first that
      does, with the flag taken down, and otherwise when the turns run out. */
  lemma {:induction false} LoopMeaning(c: Client, turns: seq<Turn>, turn: Turn, more: seq<Turn>, wire: Wire)
    requires NoneEnds(c, turns, wire)
    ensures ReadLoop(c, turns, wire) == (Through(c, turns, wire).0, false)
    ensures var d := Through(c, turns, wire).0;
            Ends(d, turn, wire) ==>
              ReadLoop(c, turns + [turn] + more, wire) == (Take(d, turn, wire).(forceReconnect := false), true)
    ensures var (d, marks) := Through(c, turns, wire);
      && AcceptedBeforeEnd(c, turns, wire) == marks
      && (Ends(d, turn, wire) ==> AcceptedBeforeEnd(c, turns + [turn] + more, wire) == marks)
    decreases |turns|
  {
    if turns == [] {
      assert turns + [turn] + more == [turn] + more;
    } else {
      LoopMeaning(Take(c, turns[0], wire), turns[1..], turn, more, wire);
      assert (turns + [turn] + more)[1..] == turns[1..] + [turn] + more;
    }
  }
}
