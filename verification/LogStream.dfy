/**
 * One client's live log: subscribe, replay the stored history, then forward what arrives, while
 * workers keep publishing (backend/main.py, backend/core/events.py).
 */
module LogStream {
  import opened Results

  /** What is published on a scan's channel; anything that is not an event is dropped by readers. */
  datatype Message = Event(id: nat, ends: bool) | Garbled | Blank

  datatype Frame = Snapshot | Forwarded(event: Message) | Finished | Ping | Interrupted

  datatype Closing = AlreadyFinished | EndReceived | Broken

  const HISTORY_MAX_EVENTS: nat := 2000

  /** `log` is every message ever published; the store keeps the last of those since the key last expired. */
  datatype State = State(
    log: seq<Message>,
    expiredAt: nat,
    history: seq<Message>,
    greeted: bool,
    subscribedAt: Option<nat>,          // the length of the log when the subscription took effect
    readAt: Option<nat>,                // its length when the history was read
    replayed: nat,                      // how many stored messages that read returned
    buffer: seq<Message>,               // messages delivered to the subscription and not yet taken
    taken: nat,
    sent: seq<Frame>,
    closed: Option<Closing>)

  const Start := State([], 0, [], false, None, None, 0, [], 0, [], None)

  datatype Action =
    | Publish(message: Message)
    | Expire
    | Greet
    | Subscribe
    | Replay(answered: bool)            // the read may fail, and then counts as empty
    | Take
    | Idle
    | Break(report: bool)

  datatype Request = Request(replay: nat, alreadyFinished: bool)

  function Last<T>(s: seq<T>, n: nat): seq<T> {
    if |s| <= n then s else s[|s| - n..]
  }

  function Events(messages: seq<Message>): seq<Message> {
    if messages == [] then [] else
    var front, m := Events(messages[..|messages| - 1]), messages[|messages| - 1];
    if m.Event? then front + [m] else front
  }

  function Forward(events: seq<Message>): (frames: seq<Frame>)
    ensures |frames| == |events| && forall i :: 0 <= i < |events| ==> frames[i] == Forwarded(events[i])
  {
    seq(|events|, i requires 0 <= i < |events| => Forwarded(events[i]))
  }

  /** `publish`: one pipeline delivers, appends and trims. */
  function PublishStep(s: State, m: Message): State {
    s.(log := s.log + [m],
       history := Last(s.history + [m], HISTORY_MAX_EVENTS),
       buffer := if s.subscribedAt.Some? && s.closed.None? then s.buffer + [m] else s.buffer)
  }

  /** What a read of the history returns. */
  function Found(s: State, r: Request, answered: bool): seq<Message> {
    if answered && r.replay > 0 then Last(s.history, r.replay) else []
  }

  /** The history is read and sent; a scan that had already finished is then closed. */
  function ReplayStep(s: State, r: Request, answered: bool): State {
    if s.subscribedAt.None? || s.readAt.Some? then s else
    var found := Found(s, r, answered);
    s.(readAt := Some(|s.log|), replayed := |found|,
       sent := s.sent + (Forward(Events(found)) + if r.alreadyFinished then [Finished] else []),
       closed := if r.alreadyFinished then Some(AlreadyFinished) else s.closed)
  }

  /** One turn of the live loop with a message in hand. */
  function TakeStep(s: State): State {
    if s.readAt.None? || s.buffer == [] then s else
    var m := s.buffer[0];
    var u := s.(buffer := s.buffer[1..], taken := s.taken + 1);
    if !m.Event? then u else
    u.(sent := s.sent + [Forwarded(m)], closed := if m.ends then Some(EndReceived) else None)
  }

  function GreetStep(s: State): State {
    if s.greeted then s else s.(greeted := true, sent := s.sent + [Snapshot])
  }

  function SubscribeStep(s: State): State {
    if s.greeted && s.subscribedAt.None? then s.(subscribedAt := Some(|s.log|)) else s
  }

  /** One step of the handler, as long as it runs. */
  function HandlerStep(s: State, r: Request, a: Action): State
    requires !a.Publish? && !a.Expire?
  {
    match a
    case Greet => GreetStep(s)
    case Subscribe => SubscribeStep(s)
    case Replay(answered) => ReplayStep(s, r, answered)
    case Take => TakeStep(s)
    case Idle => if s.readAt.Some? then s.(sent := s.sent + [Ping]) else s
    case Break(report) => s.(sent := if report then s.sent + [Interrupted] else s.sent, closed := Some(Broken))
  }

  function Apply(s: State, r: Request, a: Action): State {
    if a.Publish? then PublishStep(s, a.message)
    else if a.Expire? then s.(history := [], expiredAt := |s.log|)
    else if s.closed.Some? then s
    else HandlerStep(s, r, a)
  }

  function Run(s: State, r: Request, actions: seq<Action>): State
    decreases |actions|
  {
    if actions == [] then s else Run(Apply(s, r, actions[0]), r, actions[1..])
  }

  /** The frames that carry something, without pings and the interruption notice. */
  function Payload(sent: seq<Frame>): seq<Frame> {
    if sent == [] then [] else
    var front, f := Payload(sent[..|sent| - 1]), sent[|sent| - 1];
    if f.Ping? || f.Interrupted? then front else front + [f]
  }

  lemma {:induction false} PayloadAppend(a: seq<Frame>, b: seq<Frame>)
    ensures Payload(a + b) == Payload(a) + Payload(b)
  {
    if b == [] {
      assert a + b == a;
    } else {
      assert (a + b)[..|a + b| - 1] == a + b[..|b| - 1];
      PayloadAppend(a, b[..|b| - 1]);
    }
  }

  lemma {:induction false} PayloadOfForward(events: seq<Message>)
    ensures Payload(Forward(events)) == Forward(events)
  {
    if events != [] {
      var n := |events| - 1;
      assert Forward(events)[..n] == Forward(events[..n]);
      PayloadOfForward(events[..n]);
    }
  }

  lemma EventsAppend(a: seq<Message>, m: Message)
    ensures Events(a + [m]) == if m.Event? then Events(a) + [m] else Events(a)
  {
    assert (a + [m])[..|a|] == a;
  }

  /** The stored history is the last 2000 of everything published since the key last expired. */
  predicate HistoryHolds(log: seq<Message>, expiredAt: nat, history: seq<Message>) {
    expiredAt <= |log| && history == Last(log[expiredAt..], HISTORY_MAX_EVENTS)
  }

  lemma PublishKeepsHistory(log: seq<Message>, expiredAt: nat, history: seq<Message>, m: Message)
    requires HistoryHolds(log, expiredAt, history)
    ensures HistoryHolds(log + [m], expiredAt, Last(history + [m], HISTORY_MAX_EVENTS))
  {
    assert (log + [m])[expiredAt..] == log[expiredAt..] + [m];
  }

  /** How far back a read of `replay` events reaches. */
  function Reach(log: seq<Message>, expiredAt: nat, replay: nat): nat
    requires expiredAt <= |log|
  {
    var stored := |log| - expiredAt;
    if replay <= stored && replay <= HISTORY_MAX_EVENTS then replay
    else if stored <= HISTORY_MAX_EVENTS then stored
    else HISTORY_MAX_EVENTS
  }

  lemma ReadReaches(log: seq<Message>, expiredAt: nat, history: seq<Message>, replay: nat)
    requires HistoryHolds(log, expiredAt, history)
    ensures var n := Reach(log, expiredAt, replay);
            |Last(history, replay)| == n && n <= |log| && Last(history, replay) == log[|log| - n..]
  {
  }

  predicate Ends(m: Message) {
    m.Event? && m.ends
  }

  /** The frames for a stretch of the log. */
  function Part(log: seq<Message>, from: nat, to: nat): seq<Frame>
    requires from <= to <= |log|
  {
    Forward(Events(log[from..to]))
  }

  lemma PartKeeps(log: seq<Message>, m: Message, from: nat, to: nat)
    requires from <= to <= |log|
    ensures Part(log + [m], from, to) == Part(log, from, to)
  {
    assert (log + [m])[from..to] == log[from..to];
  }

  lemma PartGrows(log: seq<Message>, from: nat, to: nat)
    requires from <= to < |log|
    ensures Part(log, from, to + 1) == Part(log, from, to) + if log[to].Event? then [Forwarded(log[to])] else []
  {
    assert log[from..to + 1] == log[from..to] + [log[to]];
    EventsAppend(log[from..to], log[to]);
  }

  /** What precedes the live events: the snapshot, the replay, and the notice of a scan already over. */
  function Opening(log: seq<Message>, greeted: bool, readAt: Option<nat>, replayed: nat, over: bool): seq<Frame>
    requires readAt.Some? ==> replayed <= readAt.value <= |log|
  {
    (if greeted then [Snapshot] else [])
    + ((if readAt.Some? then Part(log, readAt.value - replayed, readAt.value) else [])
    + (if over then [Finished] else []))
  }

  function Live(log: seq<Message>, from: Option<nat>, taken: nat): seq<Frame>
    requires from.Some? ==> from.value + taken <= |log|
  {
    if from.Some? then Part(log, from.value, from.value + taken) else []
  }

  /** The order of the handler's steps. */
  predicate Positions(s: State) {
    && (s.subscribedAt.Some? ==> s.greeted && s.subscribedAt.value + s.taken <= |s.log|)
    && (s.subscribedAt.None? ==> s.readAt.None?)
    && (s.readAt.Some? ==> s.replayed <= s.readAt.value <= |s.log| && s.subscribedAt.value <= s.readAt.value)
    && (s.readAt.None? ==> s.taken == 0 && s.replayed == 0 && !Over(s))
    && (Over(s) ==> s.taken == 0)
  }

  predicate Over(s: State) {
    s.closed == Some(AlreadyFinished)
  }

  /** What the client has been sent, pings aside, as a function of the log and the three positions. */
  function Expected(s: State): seq<Frame>
    requires Positions(s)
  {
    Opening(s.log, s.greeted, s.readAt, s.replayed, Over(s)) + Live(s.log, s.subscribedAt, s.taken)
  }

  /** The subscription buffers everything published since it began and not yet taken. */
  predicate Buffered(log: seq<Message>, from: Option<nat>, taken: nat, buffer: seq<Message>)
    requires from.Some? ==> from.value + taken <= |log|
  {
    buffer == if from.Some? then log[from.value + taken..] else []
  }

  /** An end closes the stream: none was taken, except as the very last when the stream closed on it. */
  predicate EndStops(log: seq<Message>, from: Option<nat>, taken: nat, ended: bool)
    requires from.Some? ==> from.value + taken <= |log|
  {
    && (from.Some? ==>
          forall k :: from.value <= k < from.value + taken && Ends(log[k]) ==> ended && k == from.value + taken - 1)
    && (ended ==> from.Some? && taken > 0 && Ends(log[from.value + taken - 1]))
  }

  predicate Ordered(s: State) {
    && HistoryHolds(s.log, s.expiredAt, s.history) && Positions(s)
    && (s.closed.None? ==> Buffered(s.log, s.subscribedAt, s.taken, s.buffer))
    && EndStops(s.log, s.subscribedAt, s.taken, s.closed == Some(EndReceived))
  }

  predicate Told(s: State) {
    Positions(s) && Payload(s.sent) == Expected(s)
  }

  predicate Inv(s: State) {
    Ordered(s) && Told(s)
  }

  /** Pings and the interruption notice carry nothing. */
  lemma NoticeKeepsPayload(sent: seq<Frame>, f: Frame)
    requires f.Ping? || f.Interrupted?
    ensures Payload(sent + [f]) == Payload(sent)
  {
    assert (sent + [f])[..|sent|] == sent;
  }

  lemma PublishKeepsBuffer(log: seq<Message>, from: Option<nat>, taken: nat, buffer: seq<Message>, m: Message)
    requires from.Some? && from.value + taken <= |log| && Buffered(log, from, taken, buffer)
    ensures Buffered(log + [m], from, taken, buffer + [m])
  {
  }

  lemma PublishKeepsOrder(s: State, m: Message)
    requires Ordered(s)
    ensures Ordered(PublishStep(s, m))
  {
    PublishKeepsHistory(s.log, s.expiredAt, s.history, m);
    if s.subscribedAt.Some? && s.closed.None? {
      PublishKeepsBuffer(s.log, s.subscribedAt, s.taken, s.buffer, m);
    }
  }

  lemma OpeningKeeps(log: seq<Message>, m: Message, greeted: bool, readAt: Option<nat>, replayed: nat, over: bool)
    requires readAt.Some? ==> replayed <= readAt.value <= |log|
    ensures Opening(log + [m], greeted, readAt, replayed, over) == Opening(log, greeted, readAt, replayed, over)
  {
    if readAt.Some? {
      PartKeeps(log, m, readAt.value - replayed, readAt.value);
    }
  }

  lemma LiveKeeps(log: seq<Message>, m: Message, from: Option<nat>, taken: nat)
    requires from.Some? ==> from.value + taken <= |log|
    ensures Live(log + [m], from, taken) == Live(log, from, taken)
  {
    if from.Some? {
      PartKeeps(log, m, from.value, from.value + taken);
    }
  }

  lemma PublishKeepsTold(s: State, m: Message)
    requires Told(s)
    ensures Told(PublishStep(s, m))
  {
    OpeningKeeps(s.log, m, s.greeted, s.readAt, s.replayed, Over(s));
    LiveKeeps(s.log, m, s.subscribedAt, s.taken);
  }

  lemma SubscribeKeepsTold(s: State)
    requires Told(s)
    ensures Told(SubscribeStep(s))
  {
    assert Live(s.log, Some(|s.log|), 0) == [] by {
      assert s.log[|s.log|..|s.log| + 0] == [];
    }
  }

  lemma FoundIsRecent(s: State, r: Request, answered: bool)
    requires HistoryHolds(s.log, s.expiredAt, s.history)
    ensures var found := Found(s, r, answered);
            |found| <= |s.log| && found == s.log[|s.log| - |found|..|s.log|]
  {
    ReadReaches(s.log, s.expiredAt, s.history, r.replay);
  }

  lemma ReplayKeepsOrder(s: State, r: Request, answered: bool)
    requires Ordered(s) && s.closed.None?
    ensures Ordered(ReplayStep(s, r, answered))
  {
    FoundIsRecent(s, r, answered);
  }

  lemma NothingLiveYet(log: seq<Message>, from: Option<nat>)
    requires from.Some? ==> from.value <= |log|
    ensures Live(log, from, 0) == []
  {
    if from.Some? {
      assert log[from.value..from.value + 0] == [];
    }
  }

  lemma ReplayPayload(sent: seq<Frame>, events: seq<Message>, ending: seq<Frame>)
    requires ending == [] || ending == [Finished]
    ensures Payload(sent + (Forward(events) + ending)) == Payload(sent) + (Forward(events) + ending)
  {
    PayloadAppend(sent, Forward(events) + ending);
    PayloadAppend(Forward(events), ending);
    PayloadOfForward(events);
    assert Payload([Finished]) == [Finished];
  }

  lemma OpeningAfterRead(log: seq<Message>, n: nat, over: bool)
    requires n <= |log|
    ensures Opening(log, true, None, 0, false) == [Snapshot]
    ensures Opening(log, true, Some(|log|), n, over)
            == [Snapshot] + (Forward(Events(log[|log| - n..|log|])) + if over then [Finished] else [])
  {
  }

  lemma ReplayExpected(s: State, u: State, n: nat, over: bool)
    requires Positions(s) && Positions(u) && s.closed.None? && s.subscribedAt.Some? && s.readAt.None? && n <= |s.log|
    requires u.log == s.log && u.greeted && u.subscribedAt == s.subscribedAt && u.taken == 0
    requires u.readAt == Some(|s.log|) && u.replayed == n && Over(u) == over
    ensures Expected(s) == [Snapshot]
    ensures Expected(u) == [Snapshot] + (Forward(Events(s.log[|s.log| - n..|s.log|])) + if over then [Finished] else [])
  {
    NothingLiveYet(s.log, s.subscribedAt);
    OpeningAfterRead(s.log, n, over);
  }

  /** After the read the client has been told the replay, and that the scan was over if it was. */
  lemma ReplayKeepsTold(s: State, r: Request, answered: bool)
    requires Told(s) && s.closed.None? && HistoryHolds(s.log, s.expiredAt, s.history)
    requires Positions(ReplayStep(s, r, answered))
    ensures Told(ReplayStep(s, r, answered))
  {
    if s.subscribedAt.Some? && s.readAt.None? {
      var found := Found(s, r, answered);
      FoundIsRecent(s, r, answered);
      ReplayPayload(s.sent, Events(found), if r.alreadyFinished then [Finished] else []);
      ReplayExpected(s, ReplayStep(s, r, answered), |found|, r.alreadyFinished);
    }
  }

  lemma TakeKeepsOrder(s: State)
    requires Ordered(s) && s.closed.None?
    ensures Ordered(TakeStep(s))
  {
    if s.readAt.Some? && s.buffer != [] {
      var n := s.subscribedAt.value + s.taken;
      assert s.buffer[0] == s.log[n] && s.buffer[1..] == s.log[n + 1..];
    }
  }

  lemma LiveGrows(opening: seq<Frame>, log: seq<Message>, from: nat, taken: nat)
    requires from + taken < |log|
    ensures var m := log[from + taken];
            opening + Live(log, Some(from), taken + 1)
              == opening + Live(log, Some(from), taken) + if m.Event? then [Forwarded(m)] else []
  {
    PartGrows(log, from, from + taken);
  }

  lemma PayloadOfOne(sent: seq<Frame>, m: Message)
    ensures Payload(sent + [Forwarded(m)]) == Payload(sent) + [Forwarded(m)]
  {
    assert (sent + [Forwarded(m)])[..|sent|] == sent;
  }

  /** What is expected after one message more is what was expected and the frame for that message. */
  lemma ExpectedAfterTake(s: State)
    requires Positions(s) && s.closed.None? && s.readAt.Some? && s.subscribedAt.value + s.taken < |s.log|
    requires Positions(TakeStep(s)) && s.buffer != [] && s.buffer[0] == s.log[s.subscribedAt.value + s.taken]
    ensures Expected(TakeStep(s)) == Expected(s) + if s.buffer[0].Event? then [Forwarded(s.buffer[0])] else []
  {
    LiveGrows(Opening(s.log, s.greeted, s.readAt, s.replayed, false), s.log, s.subscribedAt.value, s.taken);
  }

  lemma TakeKeepsTold(s: State)
    requires Told(s) && s.closed.None? && Buffered(s.log, s.subscribedAt, s.taken, s.buffer)
    requires Positions(TakeStep(s))
    ensures Told(TakeStep(s))
  {
    if s.readAt.Some? && s.buffer != [] {
      assert s.buffer[0] == s.log[s.subscribedAt.value + s.taken];
      ExpectedAfterTake(s);
      PayloadOfOne(s.sent, s.buffer[0]);
    }
  }

  lemma GreetKeepsTold(s: State)
    requires Told(s) && s.closed.None?
    ensures Told(GreetStep(s))
  {
    if !s.greeted {
      PayloadAppend(s.sent, [Snapshot]);
      assert Payload([Snapshot]) == [Snapshot];
      assert Opening(s.log, false, None, 0, false) == [];
      assert Opening(s.log, true, None, 0, false) == [Snapshot];
    }
  }

  lemma StepKeepsOrder(s: State, r: Request, a: Action)
    requires Ordered(s)
    ensures Ordered(Apply(s, r, a))
  {
    if a.Publish? {
      PublishKeepsOrder(s, a.message);
    } else if a.Expire? {
      assert s.log[|s.log|..] == [];
    } else if s.closed.None? {
      match a {
        case Replay(answered) => ReplayKeepsOrder(s, r, answered);
        case Take => TakeKeepsOrder(s);
        case _ =>
      }
    }
  }

  lemma StepKeepsInv(s: State, r: Request, a: Action)
    requires Inv(s)
    ensures Inv(Apply(s, r, a))
  {
    StepKeepsOrder(s, r, a);
    if a.Publish? {
      PublishKeepsTold(s, a.message);
    } else if !a.Expire? && s.closed.None? {
      match a {
        case Subscribe => SubscribeKeepsTold(s);
        case Replay(answered) => ReplayKeepsTold(s, r, answered);
        case Take => TakeKeepsTold(s);
        case Greet => GreetKeepsTold(s);
        case Idle => NoticeKeepsPayload(s.sent, Ping);
        case Break(_) => NoticeKeepsPayload(s.sent, Interrupted);
      }
    }
  }

  lemma {:induction false} RunKeepsInv(s: State, r: Request, actions: seq<Action>)
    requires Inv(s)
    ensures Inv(Run(s, r, actions))
    decreases |actions|
  {
    if actions != [] {
      StepKeepsInv(s, r, actions[0]);
      RunKeepsInv(Apply(s, r, actions[0]), r, actions[1..]);
    }
  }

  /**
   * For every interleaving: pings aside, what was sent is the snapshot, then the events among the last
   * messages stored when the history was read, then every event published since the subscription, in
   * order, up to what has been taken and no further than the first end.
   */
  lemma SentInEveryRun(r: Request, actions: seq<Action>)
    ensures var s := Run(Start, r, actions);
            Told(s) && EndStops(s.log, s.subscribedAt, s.taken, s.closed == Some(EndReceived))
  {
    RunKeepsInv(Start, r, actions);
  }

  /** The scan's being over when the client connects decides, from the moment of the read on, whether the stream is over. */
  predicate OverDecided(s: State, r: Request) {
    (Over(s) ==> s.readAt.Some?) && (s.readAt.Some? ==> (Over(s) <==> r.alreadyFinished))
  }

  lemma StepKeepsOverDecided(s: State, r: Request, a: Action)
    requires OverDecided(s, r)
    ensures OverDecided(Apply(s, r, a), r)
  {
  }

  lemma {:induction false} RunKeepsOverDecided(s: State, r: Request, actions: seq<Action>)
    requires OverDecided(s, r)
    ensures OverDecided(Run(s, r, actions), r)
    decreases |actions|
  {
    if actions != [] {
      StepKeepsOverDecided(s, r, actions[0]);
      RunKeepsOverDecided(Apply(s, r, actions[0]), r, actions[1..]);
    }
  }

  lemma {:induction false} PayloadKeeps(sent: seq<Frame>, f: Frame)
    requires !f.Ping? && !f.Interrupted?
    ensures f in Payload(sent) <==> f in sent
  {
    if sent != [] {
      PayloadKeeps(sent[..|sent| - 1], f);
    }
  }

  lemma FinishedIffOver(s: State)
    requires Told(s)
    ensures Finished in s.sent <==> Over(s)
    ensures Over(s) ==> Payload(s.sent) == Opening(s.log, true, s.readAt, s.replayed, true)
  {
    PayloadKeeps(s.sent, Finished);
    NothingLiveYet(s.log, s.subscribedAt);
  }

  /**
   * A scan already over when the client connects: in every run, once the history is read, the stream is closed
   * for that reason exactly if it was; the end frame is sent exactly then, last, and nothing is taken live.
   */
  lemma FinishedScanClosesTheStream(r: Request, actions: seq<Action>)
    ensures var s := Run(Start, r, actions);
            && (s.readAt.Some? ==> (s.closed == Some(AlreadyFinished) <==> r.alreadyFinished))
            && (Finished in s.sent <==> s.readAt.Some? && r.alreadyFinished)
            && (Finished in s.sent ==> s.taken == 0 && |Payload(s.sent)| > 0 && Payload(s.sent)[|Payload(s.sent)| - 1] == Finished)
  {
    RunKeepsInv(Start, r, actions);
    RunKeepsOverDecided(Start, r, actions);
    FinishedIffOver(Run(Start, r, actions));
  }

  /** Pings only follow the replay, and the interruption notice is the last frame of a broken stream. */
  predicate NoticesInOrder(s: State) {
    && (Ping in s.sent ==> s.readAt.Some?)
    && (forall i :: 0 <= i < |s.sent| && s.sent[i].Interrupted? ==> i == |s.sent| - 1 && s.closed == Some(Broken))
  }

  lemma StepKeepsNotices(s: State, r: Request, a: Action)
    requires NoticesInOrder(s)
    ensures NoticesInOrder(Apply(s, r, a))
    ensures s.closed.Some? ==> Apply(s, r, a).sent == s.sent && Apply(s, r, a).closed == s.closed
  {
  }

  /** A closed stream is silent for good, and its notices come where they belong. */
  lemma {:induction false} ClosedIsSilent(s: State, r: Request, actions: seq<Action>)
    requires NoticesInOrder(s)
    ensures var u := Run(s, r, actions);
            NoticesInOrder(u) && (s.closed.Some? ==> u.sent == s.sent && u.closed == s.closed)
    decreases |actions|
  {
    if actions != [] {
      StepKeepsNotices(s, r, actions[0]);
      ClosedIsSilent(Apply(s, r, actions[0]), r, actions[1..]);
    }
  }

  /** The turns of the live loop that find nothing for half a minute. */
  function IdleTurns(s: State, r: Request, actions: seq<Action>): nat
    decreases |actions|
  {
    if actions == [] then 0 else
    (if actions[0].Idle? && s.closed.None? && s.readAt.Some? then 1 else 0) + IdleTurns(Apply(s, r, actions[0]), r, actions[1..])
  }

  /** Breaks of an open stream that the client is told of. */
  function ToldBreaks(s: State, r: Request, actions: seq<Action>): nat
    decreases |actions|
  {
    if actions == [] then 0 else
    (if actions[0] == Break(true) && s.closed.None? then 1 else 0) + ToldBreaks(Apply(s, r, actions[0]), r, actions[1..])
  }

  lemma StepSendsNotices(s: State, r: Request, a: Action)
    ensures var u := Apply(s, r, a);
            && multiset(u.sent)[Ping] == multiset(s.sent)[Ping] + (if a.Idle? && s.closed.None? && s.readAt.Some? then 1 else 0)
            && multiset(u.sent)[Interrupted] == multiset(s.sent)[Interrupted] + (if a == Break(true) && s.closed.None? then 1 else 0)
  {
    if a.Replay? && s.closed.None? {
      var events := Events(Found(s, r, a.answered));
      assert Ping !in Forward(events) && Interrupted !in Forward(events);
    }
  }

  /** One ping for each idle turn of the live loop, and one notice for a break the client is told of. */
  lemma {:induction false} NoticesAreCounted(s: State, r: Request, actions: seq<Action>)
    ensures var u := Run(s, r, actions);
            && multiset(u.sent)[Ping] == multiset(s.sent)[Ping] + IdleTurns(s, r, actions)
            && multiset(u.sent)[Interrupted] == multiset(s.sent)[Interrupted] + ToldBreaks(s, r, actions)
    decreases |actions|
  {
    if actions != [] {
      StepSendsNotices(s, r, actions[0]);
      NoticesAreCounted(Apply(s, r, actions[0]), r, actions[1..]);
    }
  }

  /** The steps left to a stream that nothing disturbs: it has been greeted, has subscribed, has read, or takes what came. */
  function NextStep(s: State): Action {
    if !s.greeted then Greet else if s.subscribedAt.None? then Subscribe else if s.readAt.None? then Replay(true) else Take
  }

  function StepsLeft(s: State): nat {
    (if s.greeted then 0 else 1) + (if s.subscribedAt.Some? then 0 else 1) + (if s.readAt.Some? then 0 else 1) + |s.buffer|
  }

  /** The handler is never stuck: left alone, an open stream closes or catches up within the steps it still has to take. */
  lemma {:induction false} StreamCatchesUp(s: State, r: Request) returns (actions: seq<Action>)
    requires Ordered(s) && s.closed.None?
    ensures var u := Run(s, r, actions);
            |actions| <= StepsLeft(s) && (CaughtUp(u) || u.closed.Some?) && u.log == s.log
    decreases StepsLeft(s)
  {
    if CaughtUp(s) {
      actions := [];
    } else {
      var u := Apply(s, r, NextStep(s));
      StepKeepsOrder(s, r, NextStep(s));
      assert StepsLeft(u) < StepsLeft(s) && u.log == s.log;
      if u.closed.Some? {
        actions := [NextStep(s)];
        assert actions[1..] == [];
      } else {
        var rest := StreamCatchesUp(u, r);
        actions := [NextStep(s)] + rest;
        assert actions[1..] == rest;
      }
    }
  }

  /** An end among the messages taken live; a replayed one is not. */
  predicate TookEnd(s: State)
    requires Positions(s)
  {
    s.subscribedAt.Some? &&
    exists k :: s.subscribedAt.value <= k < s.subscribedAt.value + s.taken && Ends(s.log[k])
  }

  lemma ClosedOnEndIff(s: State)
    requires Inv(s)
    ensures s.closed == Some(EndReceived) <==> TookEnd(s)
  {
    if s.closed == Some(EndReceived) {
      assert Ends(s.log[s.subscribedAt.value + s.taken - 1]);
    }
  }

  /** In every run the stream closes on an end exactly when it took one live, whatever the replay contained. */
  lemma ClosesOnLiveEndIff(r: Request, actions: seq<Action>)
    ensures var s := Run(Start, r, actions);
            Positions(s) && (s.closed == Some(EndReceived) <==> TookEnd(s))
  {
    RunKeepsInv(Start, r, actions);
    ClosedOnEndIff(Run(Start, r, actions));
  }

  /** The replay reaches back over exactly the requested number, the store's capacity or what is stored, whichever is least. */
  lemma ReplayReach(s: State, r: Request)
    requires Inv(s) && s.closed.None? && s.subscribedAt.Some? && s.readAt.None?
    ensures ReplayStep(s, r, true).replayed == Reach(s.log, s.expiredAt, r.replay)
    ensures ReplayStep(s, r, false).replayed == 0
  {
    ReadReaches(s.log, s.expiredAt, s.history, r.replay);
  }

  lemma {:induction false} EventsHasAll(messages: seq<Message>, k: nat)
    requires k < |messages| && messages[k].Event?
    ensures messages[k] in Events(messages)
  {
    var n := |messages| - 1;
    if k < n {
      EventsHasAll(messages[..n], k);
    }
  }

  lemma PartHasAll(log: seq<Message>, from: nat, to: nat, k: nat)
    requires from <= k < to <= |log| && log[k].Event?
    ensures Forwarded(log[k]) in Part(log, from, to)
  {
    var part := log[from..to];
    EventsHasAll(part, k - from);
    var j :| 0 <= j < |Events(part)| && Events(part)[j] == log[k];
    assert Forward(Events(part))[j] == Forwarded(log[k]);
  }

  /** The stream has read the history and forwarded everything it has received. */
  predicate CaughtUp(s: State) {
    s.subscribedAt.Some? && s.readAt.Some? && s.closed.None? && s.buffer == []
  }

  lemma ExpectedHasAll(s: State, k: nat)
    requires Positions(s) && s.readAt.Some? && s.subscribedAt.value + s.taken == |s.log| && k < |s.log| && s.log[k].Event?
    requires s.readAt.value - s.replayed <= k || s.subscribedAt.value <= k
    ensures Forwarded(s.log[k]) in Expected(s)
  {
    if s.subscribedAt.value <= k {
      PartHasAll(s.log, s.subscribedAt.value, |s.log|, k);
      assert Forwarded(s.log[k]) in Live(s.log, s.subscribedAt, s.taken);
    } else {
      PartHasAll(s.log, s.readAt.value - s.replayed, s.readAt.value, k);
      assert Forwarded(s.log[k]) in Opening(s.log, s.greeted, s.readAt, s.replayed, Over(s));
    }
  }

  /** Once the stream has caught up, nothing from the start of the replay or of the subscription on is missing. */
  lemma NothingIsLost(s: State, k: nat)
    requires Inv(s) && CaughtUp(s) && k < |s.log| && s.log[k].Event?
    requires s.readAt.value - s.replayed <= k || s.subscribedAt.value <= k
    ensures Forwarded(s.log[k]) in s.sent
  {
    assert |s.log[s.subscribedAt.value + s.taken..]| == 0;
    ExpectedHasAll(s, k);
    PayloadOnlyDrops(s.sent, Forwarded(s.log[k]));
  }

  lemma NothingIsLostInAnyRun(r: Request, actions: seq<Action>, k: nat)
    requires CaughtUp(Run(Start, r, actions)) && k < |Run(Start, r, actions).log|
    requires Run(Start, r, actions).log[k].Event?
    requires var s := Run(Start, r, actions);
             s.readAt.value - s.replayed <= k || s.subscribedAt.value <= k
    ensures Forwarded(Run(Start, r, actions).log[k]) in Run(Start, r, actions).sent
  {
    RunKeepsInv(Start, r, actions);
    NothingIsLost(Run(Start, r, actions), k);
  }

  lemma {:induction false} PayloadOnlyDrops(sent: seq<Frame>, f: Frame)
    requires f in Payload(sent)
    ensures f in sent
  {
    if f != sent[|sent| - 1] {
      PayloadOnlyDrops(sent[..|sent| - 1], f);
    }
  }

  lemma {:induction false} EventsConcat(a: seq<Message>, b: seq<Message>)
    ensures Events(a + b) == Events(a) + Events(b)
  {
    if b == [] {
      assert a + b == a;
    } else {
      assert (a + b)[..|a + b| - 1] == a + b[..|b| - 1];
      EventsConcat(a, b[..|b| - 1]);
    }
  }

  lemma PartSplits(log: seq<Message>, from: nat, mid: nat, to: nat)
    requires from <= mid <= to <= |log|
    ensures Part(log, from, to) == Part(log, from, mid) + Part(log, mid, to)
  {
    assert log[from..to] == log[from..mid] + log[mid..to];
    EventsConcat(log[from..mid], log[mid..to]);
  }

  /** Two overlapping stretches: the whole of both once, and the common part once more. */
  lemma OverlapTwice(log: seq<Message>, lo: nat, p: nat, h: nat, q: nat)
    requires lo <= h && p <= h <= q <= |log|
    ensures multiset(Part(log, lo, h)) + multiset(Part(log, p, q)) ==
            if lo <= p then multiset(Part(log, lo, q)) + multiset(Part(log, p, h))
            else multiset(Part(log, p, q)) + multiset(Part(log, lo, h))
  {
    PartSplits(log, lo, h, q);
    PartSplits(log, p, h, q);
  }

  /** What was told of a stream still open after its replay: the snapshot, the replay and the live events. */
  lemma ToldInParts(s: State)
    requires Told(s) && s.readAt.Some? && !Over(s)
    ensures Payload(s.sent) == [Snapshot] + (Part(s.log, s.readAt.value - s.replayed, s.readAt.value)
                                 + Part(s.log, s.subscribedAt.value, s.subscribedAt.value + s.taken))
  {
    assert Opening(s.log, true, s.readAt, s.replayed, false)
           == [Snapshot] + Part(s.log, s.readAt.value - s.replayed, s.readAt.value);
  }

  /**
   * The frames are the snapshot, every event from the earlier start on once, and exactly those from the later
   * start to the moment of the read once more.
   */
  predicate OverlapSentTwice(frames: seq<Frame>, log: seq<Message>, lo: nat, p: nat, h: nat, q: nat)
    requires lo <= h && p <= h <= q <= |log|
  {
    multiset(frames) == multiset{Snapshot} +
      if lo <= p then multiset(Part(log, lo, q)) + multiset(Part(log, p, h))
      else multiset(Part(log, p, q)) + multiset(Part(log, lo, h))
  }

  lemma SentTwice(frames: seq<Frame>, log: seq<Message>, lo: nat, p: nat, h: nat, q: nat)
    requires lo <= h && p <= h <= q <= |log|
    requires frames == [Snapshot] + (Part(log, lo, h) + Part(log, p, q))
    ensures OverlapSentTwice(frames, log, lo, p, h, q)
  {
    OverlapTwice(log, lo, p, h, q);
  }

  /** The stream has forwarded everything published before its history was read, and is not of a scan already over. */
  predicate PastReplay(s: State) {
    s.subscribedAt.Some? && s.readAt.Some? && !Over(s) && s.subscribedAt.value + s.taken >= s.readAt.value
  }

  predicate SentTwiceIsOverlap(s: State)
    requires Positions(s) && PastReplay(s)
  {
    OverlapSentTwice(Payload(s.sent), s.log, s.readAt.value - s.replayed, s.subscribedAt.value,
                     s.readAt.value, s.subscribedAt.value + s.taken)
  }

  lemma FramesSentTwice(s: State, frames: seq<Frame>)
    requires Positions(s) && PastReplay(s)
    requires frames == [Snapshot] + (Part(s.log, s.readAt.value - s.replayed, s.readAt.value)
                                     + Part(s.log, s.subscribedAt.value, s.subscribedAt.value + s.taken))
    ensures OverlapSentTwice(frames, s.log, s.readAt.value - s.replayed, s.subscribedAt.value,
                             s.readAt.value, s.subscribedAt.value + s.taken)
  {
    SentTwice(frames, s.log, s.readAt.value - s.replayed, s.subscribedAt.value, s.readAt.value,
              s.subscribedAt.value + s.taken);
  }

  lemma OpenStreamSentTwice(s: State)
    requires Told(s) && PastReplay(s)
    ensures SentTwiceIsOverlap(s)
  {
    ToldInParts(s);
    FramesSentTwice(s, Payload(s.sent));
  }

  lemma ToldInAnyRun(r: Request, actions: seq<Action>)
    ensures Told(Run(Start, r, actions))
  {
    RunKeepsInv(Start, r, actions);
  }

  /** In every run the duplicates among what was sent are exactly the overlap of replay and subscription. */
  lemma DuplicatesAreTheOverlap(r: Request, actions: seq<Action>)
    requires PastReplay(Run(Start, r, actions))
    ensures Positions(Run(Start, r, actions)) && SentTwiceIsOverlap(Run(Start, r, actions))
  {
    ToldInAnyRun(r, actions);
    OpenStreamSentTwice(Run(Start, r, actions));
  }

  /** What one turn of polling yields; a second-long silence is `Nothing`. */
  datatype Poll = TimedOut | Nothing | Got(message: Message)

  /** The messages among polls, as far as the loop reads. */
  function Received(polls: seq<Poll>): seq<Message> {
    if polls == [] then []
    else match polls[0]
      case Got(m) => if Ends(m) then [m] else [m] + Received(polls[1..])
      case _ => Received(polls[1..])
  }

  /** The frames the loop adds, from the polls left to read. */
  function LiveFrames(polls: seq<Poll>): seq<Frame> {
    if polls == [] then []
    else match polls[0]
      case TimedOut => [Ping] + LiveFrames(polls[1..])
      case Nothing => LiveFrames(polls[1..])
      case Got(m) =>
        if !m.Event? then LiveFrames(polls[1..])
        else if m.ends then [Forwarded(m)]
        else [Forwarded(m)] + LiveFrames(polls[1..])
  }

  lemma {:induction false} EventsPrepend(m: Message, rest: seq<Message>)
    ensures Events([m] + rest) == (if m.Event? then [m] else []) + Events(rest)
  {
    if rest == [] {
      assert [m] + rest == [m] && [m][..0] == [];
    } else {
      assert ([m] + rest)[..|rest|] == [m] + rest[..|rest| - 1];
      EventsPrepend(m, rest[..|rest| - 1]);
    }
  }

  lemma PayloadOfFrame(f: Frame)
    ensures Payload([f]) == if f.Ping? || f.Interrupted? then [] else [f]
  {
    var none: seq<Frame> := [];
    assert [f][..0] == none && Payload(none) == none;
  }

  lemma PayloadPrepend(f: Frame, rest: seq<Frame>)
    ensures Payload([f] + rest) == (if f.Ping? || f.Interrupted? then [] else [f]) + Payload(rest)
  {
    PayloadAppend([f], rest);
    PayloadOfFrame(f);
  }

  /** One received message in front of frames and of the messages they stand for. */
  lemma MessageInFront(m: Message, frames: seq<Frame>, messages: seq<Message>)
    requires Payload(frames) == Forward(Events(messages))
    ensures Payload((if m.Event? then [Forwarded(m)] else []) + frames) == Forward(Events([m] + messages))
  {
    EventsPrepend(m, messages);
    if m.Event? {
      PayloadPrepend(Forwarded(m), frames);
      assert Forward([m] + Events(messages)) == [Forwarded(m)] + Forward(Events(messages));
    } else {
      assert [] + frames == frames && [] + Events(messages) == Events(messages);
    }
  }

  /** Pings aside, the loop forwards the events it receives, up to the first end. */
  lemma {:induction false} LiveFramesAreEvents(polls: seq<Poll>)
    ensures Payload(LiveFrames(polls)) == Forward(Events(Received(polls)))
  {
    if polls == [] {
      assert Events([]) == [];
    } else {
      LiveFramesAreEvents(polls[1..]);
      var frames, messages := LiveFrames(polls[1..]), Received(polls[1..]);
      match polls[0] {
        case TimedOut => PayloadPrepend(Ping, frames);
        case Nothing =>
        case Got(m) =>
          if Ends(m) {
            MessageInFront(m, [], []);
            assert [Forwarded(m)] + [] == [Forwarded(m)] && [m] + [] == [m];
          } else {
            MessageInFront(m, frames, messages);
            assert [] + frames == frames;
          }
      }
    }
  }

  /** The store's side of one scan: the trimmed history and one subscription. */
  class Channel {
    var history: seq<Message>
    var buffer: seq<Message>
    var subscribed: bool

    constructor ()
      ensures history == [] && buffer == [] && !subscribed
    {
      history, buffer, subscribed := [], [], false;
    }

    method Publish(m: Message)
      modifies this
      ensures history == Last(old(history) + [m], HISTORY_MAX_EVENTS) && subscribed == old(subscribed)
      ensures buffer == if subscribed then old(buffer) + [m] else old(buffer)
    {
      if subscribed {
        buffer := buffer + [m];
      }
      history := history + [m];
      if |history| > HISTORY_MAX_EVENTS {
        history := history[|history| - HISTORY_MAX_EVENTS..];
      }
    }

    /** `read_history`; a range that starts at minus zero is the whole list. */
    method ReadHistory(limit: nat, answered: bool) returns (events: seq<Message>)
      ensures events == Events(if !answered then [] else if limit == 0 then history else Last(history, limit))
    {
      events := [];
      if !answered {
        return;
      }
      var raw := if limit == 0 then history else Last(history, limit);
      for i := 0 to |raw|
        invariant events == Events(raw[..i])
      {
        assert raw[..i + 1][..i] == raw[..i];
        if raw[i].Event? {
          events := events + [raw[i]];
        }
      }
      assert raw[..|raw|] == raw;
    }
  }

  /** The live loop, given what each poll will yield. */
  method ForwardLive(polls: seq<Poll>) returns (sent: seq<Frame>)
    ensures sent == LiveFrames(polls)
  {
    sent := [];
    var i := 0;
    while i < |polls|
      invariant 0 <= i <= |polls|
      invariant sent + LiveFrames(polls[i..]) == LiveFrames(polls)
    {
      var poll := polls[i];
      assert polls[i..][1..] == polls[i + 1..];
      i := i + 1;
      ghost var left := LiveFrames(polls[i..]);
      if poll.TimedOut? {
        assert sent + ([Ping] + left) == sent + [Ping] + left;
        sent := sent + [Ping];
        continue;
      }
      if poll.Nothing? || !poll.message.Event? {
        continue;
      }
      assert sent + ([Forwarded(poll.message)] + left) == sent + [Forwarded(poll.message)] + left;
      sent := sent + [Forwarded(poll.message)];
      if poll.message.ends {
        return;
      }
    }
  }
}
