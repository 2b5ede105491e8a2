/**
 * The single lobby of server.py: a module-level list of at most two player connections,
 * filled by accept_wrapper and by "join" messages, emptied by "quit" and by the main loop's
 * exception path, with broadcasts to every member.
 *
 * A connection is a `ConnId` (Python compares the Message objects by identity). What the
 * server does to connections is recorded, in order, in an event log: a `send_json` (which
 * appends to that connection's send buffer, see LibServer.Message.SendJson), a bare socket
 * send, or a close. `failing` names the connections whose `send_json` raises: the bytes are
 * appended first and the selector update that follows is what raises.
 */
module Server {
  import opened Wrappers
  import opened PyJson

  type ConnId = nat

  /** The lobby admits players while it has fewer than this many. */
  const Capacity: nat := 2

  const CodeAlphabet: string := "ABCDEFGHIJKLMNOPQRSTUVWXYZ0123456789"
  const CodeLength: nat := 4

  predicate IsLobbyCode(code: string)
  {
    |code| == CodeLength && forall i :: 0 <= i < |code| ==> code[i] in CodeAlphabet
  }

  /** create_lobby_code: `draws` are the alphabet positions random.choices picked. */
  function CreateLobbyCode(draws: seq<nat>): (code: string)
    requires |draws| == CodeLength && forall i :: 0 <= i < |draws| ==> draws[i] < |CodeAlphabet|
    ensures IsLobbyCode(code)
  {
    seq(CodeLength, i requires 0 <= i < CodeLength => CodeAlphabet[draws[i]])
  }

  function IndexOf(c: char, s: string): (k: nat)
    requires c in s
    ensures k < |s| && s[k] == c
  {
    if s[0] == c then 0 else 1 + IndexOf(c, s[1..])
  }

  /** Every 4-character code over the alphabet is one that create_lobby_code can produce. */
  lemma EveryLobbyCodeCanBeDrawn(code: string)
    requires IsLobbyCode(code)
    ensures exists draws: seq<nat> ::
      && |draws| == CodeLength
      && (forall i :: 0 <= i < |draws| ==> draws[i] < |CodeAlphabet|)
      && CreateLobbyCode(draws) == code
  {
    var draws := seq(CodeLength, i requires 0 <= i < CodeLength => IndexOf(code[i], CodeAlphabet));
    assert CreateLobbyCode(draws) == code;
  }

  // ---------------------------------------------------------------- messages

  /** The `{"type": ..., "content": ...}` dictionaries the server sends. */
  function Notice(kind: string, content: string): Json
  {
    JObj(map["type" := JStr(kind), "content" := JStr(content)])
  }

  const GameStarting: Json := Notice("start", "Game starting!")
  const LobbyFullNotice: Json := Notice("error", "Lobby is full. Connection closed.")
  const OpponentDisconnected: Json := Notice("info", "Opponent disconnected.")

  function WaitingNotice(code: string): Json
  {
    Notice("info", "Waiting for an opponent. Lobby code: " + code)
  }

  /** The bytes accept_wrapper sends straight on the socket to a connection it turns away. */
  const LobbyFullRaw: string := "{\"type\": \"error\", \"content\": \"Lobby is full. Connection closed.\"}"

  datatype Event =
    | SendJson(conn: ConnId, msg: Json)
    | SendRaw(conn: ConnId, text: string)
    | Close(conn: ConnId)

  /** The recipients of `msg`, in the order it was handed to send_json. */
  function Deliveries(events: seq<Event>, msg: Json): seq<ConnId>
  {
    if events == [] then []
    else
      var last := events[|events| - 1];
      Deliveries(events[..|events| - 1], msg) + (if last.SendJson? && last.msg == msg then [last.conn] else [])
  }

  /** The connections closed, in order. */
  function Closes(events: seq<Event>): seq<ConnId>
  {
    if events == [] then []
    else
      var last := events[|events| - 1];
      Closes(events[..|events| - 1]) + (if last.Close? then [last.conn] else [])
  }

  lemma {:induction false} DeliveriesAppend(a: seq<Event>, b: seq<Event>, msg: Json)
    ensures Deliveries(a + b, msg) == Deliveries(a, msg) + Deliveries(b, msg)
    ensures Closes(a + b) == Closes(a) + Closes(b)
    decreases |b|
  {
    if b == [] {
      assert a + b == a;
    } else {
      var b' := b[..|b| - 1];
      assert (a + b)[..|a + b| - 1] == a + b';
      DeliveriesAppend(a, b', msg);
    }
  }

  /** The connections of `ps` that are in `failing`, in order. */
  function Failing(ps: seq<ConnId>, failing: set<ConnId>): seq<ConnId>
  {
    if ps == [] then [] else Failing(ps[..|ps| - 1], failing) + (if ps[|ps| - 1] in failing then [ps[|ps| - 1]] else [])
  }

  /** What broadcasting to one player does: send, and close the player if the send raised. */
  function Delivery(p: ConnId, msg: Json, failing: set<ConnId>): (r: seq<Event>)
    ensures 1 <= |r| <= 2 && r[0] == SendJson(p, msg)
    ensures |r| == 2 <==> p in failing
    ensures |r| == 2 ==> r[1] == Close(p)
  {
    if p in failing then [SendJson(p, msg), Close(p)] else [SendJson(p, msg)]
  }

  /** The events of broadcast over the snapshot `ps`. */
  function BroadcastLog(ps: seq<ConnId>, msg: Json, failing: set<ConnId>): (r: seq<Event>)
    ensures |r| == |ps| + |Failing(ps, failing)|
    ensures ps != [] ==> r[0] == SendJson(ps[0], msg)
  {
    if ps == [] then [] else BroadcastLog(ps[..|ps| - 1], msg, failing) + Delivery(ps[|ps| - 1], msg, failing)
  }

  /** The deliveries and closes of a single event. */
  lemma OneEvent(e: Event, msg: Json)
    ensures Deliveries([e], msg) == if e.SendJson? && e.msg == msg then [e.conn] else []
    ensures Closes([e]) == if e.Close? then [e.conn] else []
  {
    assert [e][..0] == [];
  }

  /** The deliveries and closes of broadcasting to one player. */
  lemma DeliveryEvents(p: ConnId, msg: Json, failing: set<ConnId>, other: Json)
    ensures Deliveries(Delivery(p, msg, failing), other) == if other == msg then [p] else []
    ensures Closes(Delivery(p, msg, failing)) == if p in failing then [p] else []
  {
    OneEvent(SendJson(p, msg), other);
    OneEvent(Close(p), other);
    DeliveriesAppend([SendJson(p, msg)], [Close(p)], other);
  }

  lemma SnocLast(ps: seq<ConnId>)
    requires ps != []
    ensures ps[..|ps| - 1] + [ps[|ps| - 1]] == ps
  {
  }

  lemma AppendTwo(a: seq<Event>, x: Event, y: Event)
    ensures a + [x] + [y] == a + [x, y]
  {
  }

  lemma AppendAssoc(a: seq<Event>, b: seq<Event>, c: seq<Event>)
    ensures a + b + c == a + (b + c)
  {
  }

  /** One more player of the snapshot adds that player's delivery. */
  lemma BroadcastLogStep(ps: seq<ConnId>, i: nat, msg: Json, failing: set<ConnId>)
    requires i < |ps|
    ensures BroadcastLog(ps[..i + 1], msg, failing) == BroadcastLog(ps[..i], msg, failing) + Delivery(ps[i], msg, failing)
  {
    assert ps[..i + 1][..i] == ps[..i];
  }

  /** Broadcasting to `ps` is broadcasting to all but its last player, then to that one. */
  lemma BroadcastLogSplit(ps: seq<ConnId>, msg: Json, failing: set<ConnId>, other: Json)
    requires ps != []
    ensures Deliveries(BroadcastLog(ps, msg, failing), other)
      == Deliveries(BroadcastLog(ps[..|ps| - 1], msg, failing), other) + Deliveries(Delivery(ps[|ps| - 1], msg, failing), other)
    ensures Closes(BroadcastLog(ps, msg, failing))
      == Closes(BroadcastLog(ps[..|ps| - 1], msg, failing)) + Closes(Delivery(ps[|ps| - 1], msg, failing))
  {
    DeliveriesAppend(BroadcastLog(ps[..|ps| - 1], msg, failing), Delivery(ps[|ps| - 1], msg, failing), other);
  }

  lemma {:induction false} BroadcastDeliveries(ps: seq<ConnId>, msg: Json, failing: set<ConnId>, other: Json)
    ensures Deliveries(BroadcastLog(ps, msg, failing), other) == if other == msg then ps else []
    decreases |ps|
  {
    if ps != [] {
      var init := ps[..|ps| - 1];
      var p := ps[|ps| - 1];
      BroadcastLogSplit(ps, msg, failing, other);
      BroadcastDeliveries(init, msg, failing, other);
      DeliveryEvents(p, msg, failing, other);
      SnocLast(ps);
    }
  }

  lemma {:induction false} BroadcastCloses(ps: seq<ConnId>, msg: Json, failing: set<ConnId>)
    ensures Closes(BroadcastLog(ps, msg, failing)) == Failing(ps, failing)
    decreases |ps|
  {
    if ps != [] {
      BroadcastLogSplit(ps, msg, failing, msg);
      BroadcastCloses(ps[..|ps| - 1], msg, failing);
      DeliveryEvents(ps[|ps| - 1], msg, failing, msg);
    }
  }

  /**
   * broadcast hands the message to every player of the snapshot, in order, whether or not
   * sends to others failed, sends nothing else, and closes exactly the players whose send failed.
   */
  lemma BroadcastReachesEveryPlayer(ps: seq<ConnId>, msg: Json, failing: set<ConnId>, other: Json)
    ensures Deliveries(BroadcastLog(ps, msg, failing), other) == if other == msg then ps else []
    ensures Closes(BroadcastLog(ps, msg, failing)) == Failing(ps, failing)
  {
    BroadcastDeliveries(ps, msg, failing, other);
    BroadcastCloses(ps, msg, failing);
  }

  /** list.remove: drop the first occurrence (Python raises ValueError when there is none; callers test `in` first). */
  function RemoveFirst(xs: seq<ConnId>, x: ConnId): (r: seq<ConnId>)
    ensures x in xs ==> |r| == |xs| - 1
    ensures x !in xs ==> r == xs
    ensures multiset(r) == multiset(xs) - multiset{x}
  {
    if xs == [] then []
    else if xs[0] == x then
      assert xs == [xs[0]] + xs[1..];
      xs[1..]
    else
      assert xs == [xs[0]] + xs[1..];
      [xs[0]] + RemoveFirst(xs[1..], x)
  }

  function FirstIndex(xs: seq<ConnId>, x: ConnId): (i: nat)
    requires x in xs
    ensures i < |xs| && xs[i] == x && x !in xs[..i]
  {
    if xs[0] == x then 0 else 1 + FirstIndex(xs[1..], x)
  }

  /** Only the first occurrence goes: what precedes it and what follows it stay, in order. */
  lemma ConsSplice(h: ConnId, t: seq<ConnId>, j: nat)
    requires j < |t|
    ensures [h] + (t[..j] + t[j + 1..]) == ([h] + t)[..j + 1] + ([h] + t)[j + 2..]
  {
    assert ([h] + t)[..j + 1] == [h] + t[..j];
    assert ([h] + t)[j + 2..] == t[j + 1..];
  }

  lemma {:induction false} RemoveFirstSplices(xs: seq<ConnId>, x: ConnId)
    requires x in xs
    ensures var i := FirstIndex(xs, x); RemoveFirst(xs, x) == xs[..i] + xs[i + 1..]
  {
    if xs[0] != x {
      var tail := xs[1..];
      assert xs == [xs[0]] + tail;
      RemoveFirstSplices(tail, x);
      ConsSplice(xs[0], tail, FirstIndex(tail, x));
    }
  }

  // ---------------------------------------------------------------- the lobby as a state machine

  /** `lobby["code"]`, `lobby["players"]`, and everything the server did to connections so far. */
  datatype LobbyState = LobbyState(code: string, players: seq<ConnId>, log: seq<Event>)

  /** The events `t` added to the log of `s`. */
  function NewEvents(s: LobbyState, t: LobbyState): seq<Event>
    requires s.log <= t.log
  {
    t.log[|s.log|..]
  }

  /** A step that appends `e` to the log adds exactly `e`. */
  lemma Appended(s: LobbyState, t: LobbyState, e: seq<Event>)
    requires t.log == s.log + e
    ensures s.log <= t.log && NewEvents(s, t) == e
  {
  }

  /** What two steps add is what the first adds followed by what the second adds. */
  lemma NewEventsChain(s: LobbyState, u: LobbyState, t: LobbyState)
    requires s.log <= u.log <= t.log
    ensures NewEvents(s, t) == NewEvents(s, u) + NewEvents(u, t)
  {
  }

  /** broadcast(msg). */
  function AfterBroadcast(s: LobbyState, msg: Json, failing: set<ConnId>): (t: LobbyState)
    ensures t.code == s.code && t.players == s.players && s.log <= t.log
  {
    s.(log := s.log + BroadcastLog(s.players, msg, failing))
  }

  /** What a broadcast adds: `msg` to each player present, in order, and closes for the failed sends only. */
  lemma AfterBroadcastEvents(s: LobbyState, msg: Json, failing: set<ConnId>, other: Json)
    ensures var t := AfterBroadcast(s, msg, failing);
      && Deliveries(NewEvents(s, t), other) == (if other == msg then s.players else [])
      && Closes(NewEvents(s, t)) == Failing(s.players, failing)
  {
    var t := AfterBroadcast(s, msg, failing);
    assert NewEvents(s, t) == BroadcastLog(s.players, msg, failing);
    BroadcastReachesEveryPlayer(s.players, msg, failing, other);
  }

  /** accept_wrapper with `conn` the connection sock.accept returned. */
  function AfterAccept(s: LobbyState, conn: ConnId, failing: set<ConnId>): (t: LobbyState)
    ensures |s.players| <= Capacity ==> |t.players| <= Capacity
    ensures t.code == s.code && s.log <= t.log
    ensures |s.players| < Capacity ==>
      && t.players == s.players + [conn]
      && NewEvents(s, t) == (if |s.players| + 1 == Capacity then BroadcastLog(t.players, GameStarting, failing) else [])
    ensures |s.players| >= Capacity ==>
      t.players == s.players && NewEvents(s, t) == [SendRaw(conn, LobbyFullRaw), Close(conn)]
  {
    if |s.players| < Capacity then
      var s1 := s.(players := s.players + [conn]);
      if |s1.players| == Capacity then AfterBroadcast(s1, GameStarting, failing) else s1
    else
      s.(log := s.log + [SendRaw(conn, LobbyFullRaw), Close(conn)])
  }

  /** accept_wrapper announces the game exactly when its append fills the lobby, and then to both players. */
  lemma AcceptAnnouncesAtCapacity(s: LobbyState, conn: ConnId, failing: set<ConnId>)
    ensures var t := AfterAccept(s, conn, failing);
      Deliveries(NewEvents(s, t), GameStarting) == if |s.players| + 1 == Capacity then t.players else []
  {
    var t := AfterAccept(s, conn, failing);
    if |s.players| < Capacity {
      var s1 := s.(players := s.players + [conn]);
      if |s1.players| == Capacity {
        AfterBroadcastEvents(s1, GameStarting, failing, GameStarting);
      } else {
        assert NewEvents(s, t) == [];
      }
    } else {
      var rejected := [SendRaw(conn, LobbyFullRaw), Close(conn)];
      OneEvent(SendRaw(conn, LobbyFullRaw), GameStarting);
      OneEvent(Close(conn), GameStarting);
      DeliveriesAppend([SendRaw(conn, LobbyFullRaw)], [Close(conn)], GameStarting);
      assert [SendRaw(conn, LobbyFullRaw)] + [Close(conn)] == rejected;
    }
  }

  /** `data.get("content", {}).get("action")`: both must be dicts, or `.get` raises AttributeError. */
  function RequestedAction(data: Json): (r: Result<Json>)
    ensures r.Ok? <==> data.JObj? && ("content" in data.fields ==> data.fields["content"].JObj?)
    ensures r.Ok? && "content" in data.fields && "action" in data.fields["content"].fields ==>
      r.value == data.fields["content"].fields["action"]
    ensures r.Ok? && ("content" !in data.fields || "action" !in data.fields["content"].fields) ==> r.value == JNull
  {
    match Get(data, "content", JObj(map[]))
    case Err(e) => Err(e)
    case Ok(content) => Get(content, "action", JNull)
  }

  /** The Python message dictionary asking for `action`. */
  function ActionRequest(action: string): Json
  {
    JObj(map["content" := JObj(map["action" := JStr(action)])])
  }

  /**
   * The "join" branch of handle_message: below capacity, append and reply with the lobby code,
   * then announce if that filled the lobby; at capacity, reply with the error and close. A reply
   * whose send raises ends the branch there.
   */
  function AfterJoin(s: LobbyState, m: ConnId, failing: set<ConnId>): (r: (LobbyState, Outcome))
    ensures |s.players| <= Capacity ==> |r.0.players| <= Capacity
    ensures r.0.code == s.code && s.log <= r.0.log
    ensures |s.players| < Capacity ==>
      && r.0.players == s.players + [m]
      && NewEvents(s, r.0) == [SendJson(m, WaitingNotice(s.code))]
           + (if |s.players| + 1 == Capacity && m !in failing then BroadcastLog(r.0.players, GameStarting, failing) else [])
      && r.1 == (if m in failing then Fail(SendFailed) else Pass)
    ensures |s.players| >= Capacity ==>
      && r.0.players == s.players
      && NewEvents(s, r.0) == (if m in failing then [SendJson(m, LobbyFullNotice)]
                               else [SendJson(m, LobbyFullNotice), Close(m)])
      && r.1 == (if m in failing then Fail(SendFailed) else Pass)
  {
    if |s.players| < Capacity then
      var waiting := [SendJson(m, WaitingNotice(s.code))];
      var s1 := s.(players := s.players + [m], log := s.log + waiting);
      Appended(s, s1, waiting);
      if m in failing then (s1, Fail(SendFailed))
      else if |s1.players| == Capacity then
        var t := AfterBroadcast(s1, GameStarting, failing);
        var announced := BroadcastLog(t.players, GameStarting, failing);
        Appended(s1, t, announced);
        NewEventsChain(s, s1, t);
        (t, Pass)
      else
        assert waiting + [] == waiting;
        (s1, Pass)
    else
      var s1 := s.(log := s.log + [SendJson(m, LobbyFullNotice)]);
      if m in failing then (s1, Fail(SendFailed))
      else
        AppendTwo(s.log, SendJson(m, LobbyFullNotice), Close(m));
        (s1.(log := s1.log + [Close(m)]), Pass)
  }

  /** handle_message: "join" and "quit"; any other action is ignored. */
  function AfterMessage(s: LobbyState, m: ConnId, data: Json, failing: set<ConnId>): (r: (LobbyState, Outcome))
    ensures |s.players| <= Capacity ==> |r.0.players| <= Capacity
    ensures r.0.code == s.code && s.log <= r.0.log
    ensures RequestedAction(data).Err? ==> r == (s, Fail(RequestedAction(data).error))
    ensures RequestedAction(data).Ok? && RequestedAction(data).value != JStr("join") && RequestedAction(data).value != JStr("quit") ==>
      r == (s, Pass)
  {
    match RequestedAction(data)
    case Err(e) => (s, Fail(e))
    case Ok(action) =>
      if action == JStr("join") then AfterJoin(s, m, failing)
      else if action == JStr("quit") then
        (s.(players := RemoveFirst(s.players, m), log := s.log + [Close(m)]), Pass)
      else
        (s, Pass)
  }

  /** A "join" below capacity appends the connection and first tells it the lobby code; that send may raise. */
  lemma JoinAdmitsBelowCapacity(s: LobbyState, m: ConnId, data: Json, failing: set<ConnId>)
    requires RequestedAction(data) == Ok(JStr("join")) && |s.players| < Capacity
    ensures var (t, o) := AfterMessage(s, m, data, failing);
      && t.players == s.players + [m]
      && NewEvents(s, t)[0] == SendJson(m, WaitingNotice(s.code))
      && NewEvents(s, t) == [SendJson(m, WaitingNotice(s.code))]
           + (if |s.players| + 1 == Capacity && m !in failing then BroadcastLog(t.players, GameStarting, failing) else [])
      && (o.Fail? <==> m in failing)
  {
  }

  /** The lobby-code reply to a "join" is not the game-start announcement. */
  lemma WaitingIsNoAnnouncement(m: ConnId, code: string)
    ensures Deliveries([SendJson(m, WaitingNotice(code))], GameStarting) == []
  {
    OneEvent(SendJson(m, WaitingNotice(code)), GameStarting);
    assert WaitingNotice(code).fields["type"] == JStr("info");
    assert GameStarting.fields["type"] == JStr("start");
  }

  /** Unless its reply raised, an admitting "join" announces the game to both players exactly when it fills the lobby. */
  lemma JoinAnnouncesAtCapacity(s: LobbyState, m: ConnId, data: Json, failing: set<ConnId>)
    requires RequestedAction(data) == Ok(JStr("join")) && |s.players| < Capacity
    ensures var t := AfterMessage(s, m, data, failing).0;
      Deliveries(NewEvents(s, t), GameStarting)
      == (if |s.players| + 1 == Capacity && m !in failing then t.players else [])
  {
    var t := AfterJoin(s, m, failing).0;
    assert AfterMessage(s, m, data, failing).0 == t;
    var waiting := [SendJson(m, WaitingNotice(s.code))];
    var s1 := s.(players := s.players + [m], log := s.log + waiting);
    WaitingIsNoAnnouncement(m, s.code);
    var rest := NewEvents(s1, t);
    NewEventsChain(s, s1, t);
    assert NewEvents(s, s1) == waiting;
    DeliveriesAppend(waiting, rest, GameStarting);
    if m !in failing && |s1.players| == Capacity {
      AfterBroadcastEvents(s1, GameStarting, failing, GameStarting);
    } else {
      assert rest == [];
    }
  }

  /** A "join" on a full lobby leaves the players alone, sends the error, and closes the connection unless that send raised. */
  lemma JoinRejectedWhenFull(s: LobbyState, m: ConnId, data: Json, failing: set<ConnId>)
    requires RequestedAction(data) == Ok(JStr("join")) && |s.players| >= Capacity
    ensures var (t, o) := AfterMessage(s, m, data, failing);
      && t.players == s.players
      && NewEvents(s, t) == (if m in failing then [SendJson(m, LobbyFullNotice)]
                             else [SendJson(m, LobbyFullNotice), Close(m)])
      && (o.Fail? <==> m in failing)
  {
  }

  /** "quit" removes the first occurrence of a member, leaves a non-member's list alone, and always closes. */
  lemma QuitRemovesFirstOccurrence(s: LobbyState, m: ConnId, data: Json, failing: set<ConnId>)
    requires RequestedAction(data) == Ok(JStr("quit"))
    ensures var (t, o) := AfterMessage(s, m, data, failing);
      && o == Pass
      && (m in s.players ==> multiset(t.players) == multiset(s.players) - multiset{m} && |t.players| == |s.players| - 1)
      && (m !in s.players ==> t.players == s.players)
      && t.players == RemoveFirst(s.players, m)
      && NewEvents(s, t) == [Close(m)]
  {
  }

  /**
   * The main loop's exception path: a member is removed (its first occurrence) and the
   * remaining players are told; the connection is closed either way.
   */
  function AfterDrop(s: LobbyState, m: ConnId, failing: set<ConnId>): (t: LobbyState)
    ensures |s.players| <= Capacity ==> |t.players| <= Capacity
    ensures t.code == s.code && |s.log| < |t.log| && s.log <= t.log
    ensures t.players == RemoveFirst(s.players, m)
    ensures t.log[|t.log| - 1] == Close(m)
    ensures m !in s.players ==> NewEvents(s, t) == [Close(m)]
    ensures m in s.players ==> NewEvents(s, t) == BroadcastLog(t.players, OpponentDisconnected, failing) + [Close(m)]
  {
    if m in s.players then
      var s0 := s.(players := RemoveFirst(s.players, m));
      var s1 := AfterBroadcast(s0, OpponentDisconnected, failing);
      var t := s1.(log := s1.log + [Close(m)]);
      var notified := BroadcastLog(s0.players, OpponentDisconnected, failing);
      Appended(s0, s1, notified);
      Appended(s1, t, [Close(m)]);
      NewEventsChain(s0, s1, t);
      t
    else
      var t := s.(log := s.log + [Close(m)]);
      Appended(s, t, [Close(m)]);
      t
  }

  /** When a member drops, every remaining player, and no one else, is told the opponent left. */
  lemma DropNotifiesRemainingPlayers(s: LobbyState, m: ConnId, failing: set<ConnId>)
    requires m in s.players
    ensures var t := AfterDrop(s, m, failing);
      Deliveries(NewEvents(s, t), OpponentDisconnected) == t.players
  {
    var s0 := s.(players := RemoveFirst(s.players, m));
    var s1 := AfterBroadcast(s0, OpponentDisconnected, failing);
    var t := AfterDrop(s, m, failing);
    AfterBroadcastEvents(s0, OpponentDisconnected, failing, OpponentDisconnected);
    NewEventsChain(s, s1, t);
    assert NewEvents(s1, t) == [Close(m)];
    DeliveriesAppend(NewEvents(s0, s1), [Close(m)], OpponentDisconnected);
    OneEvent(Close(m), OpponentDisconnected);
  }

  /** One thing that can happen to the lobby. */
  datatype Op =
    | AcceptOp(conn: ConnId, failing: set<ConnId>)
    | MessageOp(conn: ConnId, data: Json, failing: set<ConnId>)
    | DropOp(conn: ConnId, failing: set<ConnId>)

  function Apply(s: LobbyState, op: Op): LobbyState
  {
    match op
    case AcceptOp(conn, failing) => AfterAccept(s, conn, failing)
    case MessageOp(conn, data, failing) => AfterMessage(s, conn, data, failing).0
    case DropOp(conn, failing) => AfterDrop(s, conn, failing)
  }

  function Run(s: LobbyState, ops: seq<Op>): LobbyState
    decreases |ops|
  {
    if ops == [] then s else Run(Apply(s, ops[0]), ops[1..])
  }

  /** Whatever happens, in whatever order, the lobby never holds more than two players. */
  lemma {:induction false} NeverOverCapacity(s: LobbyState, ops: seq<Op>)
    requires |s.players| <= Capacity
    ensures |Run(s, ops).players| <= Capacity
    decreases |ops|
  {
    if ops != [] {
      NeverOverCapacity(Apply(s, ops[0]), ops[1..]);
    }
  }

  /**
   * accept_wrapper already put the connection in the lobby, so its own "join" adds it a second
   * time and the game-start broadcast reaches it twice; "quit" then removes one copy only.
   */
  lemma AcceptThenJoinDuplicates(code: string, conn: ConnId)
    ensures var s1 := AfterAccept(LobbyState(code, [], []), conn, {});
      var (s2, o) := AfterMessage(s1, conn, ActionRequest("join"), {});
      && o == Pass
      && s2.players == [conn, conn]
      && Deliveries(NewEvents(s1, s2), GameStarting) == [conn, conn]
      && AfterMessage(s2, conn, ActionRequest("quit"), {}).0.players == [conn]
  {
    var s1 := AfterAccept(LobbyState(code, [], []), conn, {});
    assert s1 == LobbyState(code, [conn], []);
    assert RequestedAction(ActionRequest("join")) == Ok(JStr("join"));
    assert RequestedAction(ActionRequest("quit")) == Ok(JStr("quit"));
    var (s2, o) := AfterMessage(s1, conn, ActionRequest("join"), {});
    assert (s2, o) == AfterJoin(s1, conn, {});
    assert s2.players == [conn, conn];
    JoinAnnouncesAtCapacity(s1, conn, ActionRequest("join"), {});
    QuitRemovesFirstOccurrence(s2, conn, ActionRequest("quit"), {});
  }

  // ---------------------------------------------------------------- the module-level lobby

  class Lobby {
    var code: string
    var players: seq<ConnId>
    var log: seq<Event>

    function State(): LobbyState
      reads this
    {
      LobbyState(code, players, log)
    }

    ghost predicate Valid()
      reads this
    {
      |players| <= Capacity
    }

    constructor (code: string)
      ensures Valid() && State() == LobbyState(code, [], [])
    {
      this.code := code;
      players := [];
      log := [];
    }

    /** broadcast: iterate over a snapshot of the players. */
    method Broadcast(msg: Json, failing: set<ConnId>)
      modifies this`log
      ensures State() == AfterBroadcast(old(State()), msg, failing)
    {
      var snapshot := players;
      var i := 0;
      while i < |snapshot|
        invariant 0 <= i <= |snapshot|
        invariant log == old(log) + BroadcastLog(snapshot[..i], msg, failing)
      {
        var player := snapshot[i];
        ghost var before := log;
        log := log + [SendJson(player, msg)];
        if player in failing {
          log := log + [Close(player)];
          AppendTwo(before, SendJson(player, msg), Close(player));
        }
        BroadcastLogStep(snapshot, i, msg, failing);
        AppendAssoc(old(log), BroadcastLog(snapshot[..i], msg, failing), Delivery(player, msg, failing));
        i := i + 1;
      }
      assert snapshot[..|snapshot|] == snapshot;
    }

    /** accept_wrapper. */
    method AcceptWrapper(conn: ConnId, failing: set<ConnId>)
      requires Valid()
      modifies this`players, this`log
      ensures Valid() && State() == AfterAccept(old(State()), conn, failing)
    {
      if |players| < Capacity {
        players := players + [conn];
        if |players| == Capacity {
          Broadcast(GameStarting, failing);
        }
      } else {
        log := log + [SendRaw(conn, LobbyFullRaw)];
        log := log + [Close(conn)];
      }
    }

    /** handle_message. */
    method HandleMessage(m: ConnId, data: Json, failing: set<ConnId>) returns (o: Outcome)
      requires Valid()
      modifies this`players, this`log
      ensures Valid() && (State(), o) == AfterMessage(old(State()), m, data, failing)
    {
      var action := RequestedAction(data);
      if action.Err? {
        return Fail(action.error);
      }
      if action.value == JStr("join") {
        if |players| < Capacity {
          players := players + [m];
          log := log + [SendJson(m, WaitingNotice(code))];
          if m in failing {
            return Fail(SendFailed);
          }
          if |players| == Capacity {
            Broadcast(GameStarting, failing);
          }
        } else {
          log := log + [SendJson(m, LobbyFullNotice)];
          if m in failing {
            return Fail(SendFailed);
          }
          log := log + [Close(m)];
        }
      } else if action.value == JStr("quit") {
        if m in players {
          players := RemoveFirst(players, m);
        }
        log := log + [Close(m)];
      }
      o := Pass;
    }

    /** The main loop's `except` branch for connection `m`. */
    method DropConnection(m: ConnId, failing: set<ConnId>)
      requires Valid()
      modifies this`players, this`log
      ensures Valid() && State() == AfterDrop(old(State()), m, failing)
    {
      if m in players {
        players := RemoveFirst(players, m);
        Broadcast(OpponentDisconnected, failing);
      }
      log := log + [Close(m)];
    }
  }
}
