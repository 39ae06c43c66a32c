/** Whole runs of the delivery path: frames arriving under a clock that does not go back,
    between the person's own moves, sent lines and forgotten conversations. */
module InboxRuns {
  import opened Options
  import opened Rosters
  import opened Indexed
  import opened Histories
  import opened Replay
  import opened Inboxes

  datatype Event =
    | Arrives(a: Arrival)
    | Posts(f: Frame, community: string, now: int)
    | Moves(m: Move)
    | Says(f: Frame, peer: string)
    | Forgets(k: Conversation)
    | Wipes

  /** The tables, the latest time seen, the roster's moves so far and every frame that was
      taken: for which `Deliver` said yes, or whose post went into a log. */
  datatype State = State(desk: Desk, clock: int, moves: seq<Move>, taken: seq<Frame>)

  function Start(clock: int): State {
    State(Desk(EmptyBook, map[], EmptyLog), clock, [], [])
  }

  /** The roster's move inside a delivery, if one was carried out. */
  function Moved(d: Desk, me: string, a: Arrival): seq<Move> {
    if Welcome(d.book, me, a) && Admits(d.seen, a.frame.value.id, a.frame.value.sent, a.now) then
      var m := MoveOf(d.book, a.frame.value);
      if m.Some? && Result(d.book, me, m.value).Some? then [m.value] else []
    else []
  }

  /** An arrival at a time before the clock's is not part of a run. */
  function Next(st: State, me: string, e: Event): State {
    match e
    case Arrives(a) =>
      if a.now < st.clock then st
      else
        var r := Delivered(st.desk, me, a);
        State(r.desk, a.now, st.moves + Moved(st.desk, me, a),
              if r.ok && a.frame.Some? then st.taken + [a.frame.value] else st.taken)
    case Posts(f, community, now) =>
      if now < st.clock then st
      else
        var r := Posted(st.desk, me, f, community, now);
        st.(desk := r.desk, clock := now, taken := if r.ok then st.taken + [f] else st.taken)
    case Moves(m) =>
      var n := Result(st.desk.book, me, m);
      if n.Some? then st.(desk := st.desk.(book := n.value), moves := st.moves + [m]) else st
    case Says(f, peer) =>
      var n := Appended(st.desk.log, f, peer, true);
      if n.Some? then st.(desk := st.desk.(log := n.value)) else st
    case Forgets(k) => st.(desk := st.desk.(log := Forgotten(st.desk.log, k)))
    case Wipes => st.(desk := st.desk.(log := EmptyLog))
  }

  function Run(clock: int, me: string, events: seq<Event>): State {
    if events == [] then Start(clock) else Next(Run(clock, me, events[..|events| - 1]), me, events[|events| - 1])
  }

  // ---- what every state keeps --------------------------------------------------------------------

  predicate Apart(f: Frame, g: Frame) { f.id != g.id || f.sent != g.sent }

  ghost predicate TakenOk(st: State) {
    && (forall i :: 0 <= i < |st.taken| ==> Remembers(st.desk.seen, st.taken[i].id, st.taken[i].sent, st.clock))
    && (forall i, j :: 0 <= i < j < |st.taken| ==> Apart(st.taken[i], st.taken[j]))
    && |st.desk.seen| <= MAX_SEEN_FRAMES
  }

  predicate Met(st: PeerState) { st.Accepted? || st.Blocked? }

  /** A line that came in directly is filed under its writer, who was accepted. */
  ghost predicate LinesOk(b: Book, log: Log) {
    forall p, i :: Direct(p) in log.logs && 0 <= i < |log.logs[Direct(p)]| && !log.logs[Direct(p)][i].value.outgoing ==>
      log.logs[Direct(p)][i].value.from == p && Met(StateOf(b, p))
  }

  ghost predicate Inv(st: State, me: string) {
    && Rosters.Inv(Rosters.Run(st.desk.book, st.moves), me)
    && LogOk(st.desk.log) && TakenOk(st) && LinesOk(st.desk.book, st.desk.log)
  }

  lemma ArrivesTaken(st: State, me: string, a: Arrival)
    requires TakenOk(st) && st.clock <= a.now
    ensures TakenOk(Next(st, me, Arrives(a)))
  {
    hide Remembers, Admits, Offered, Welcome, Effected;
    var n := Next(st, me, Arrives(a));
    if Welcome(st.desk.book, me, a) {
      var f := FrameOf(st.desk.book, me, a);
      SeenAfter(st.desk, me, a);
      forall i | 0 <= i < |st.taken|
        ensures Remembers(n.desk.seen, st.taken[i].id, st.taken[i].sent, a.now)
        ensures Admits(st.desk.seen, f.id, f.sent, a.now) ==> Apart(st.taken[i], f)
      {
        OfferedRemembers(st.desk.seen, st.taken[i].id, st.taken[i].sent, st.clock, f.id, f.sent, a.now);
      }
      OfferedBounded(st.desk.seen, f.id, f.sent, a.now);
      if Admits(st.desk.seen, f.id, f.sent, a.now) {
        NewRemembered(st.desk.seen, f.id, f.sent, a.now);
      }
    } else {
      forall i | 0 <= i < |st.taken| ensures Remembers(st.desk.seen, st.taken[i].id, st.taken[i].sent, a.now) {
        Older(st.desk.seen, st.taken[i].id, st.taken[i].sent, st.clock, a.now);
      }
    }
  }

  lemma PostsTaken(st: State, me: string, f: Frame, community: string, now: int)
    requires TakenOk(st) && st.clock <= now
    ensures TakenOk(Next(st, me, Posts(f, community, now)))
  {
    hide Remembers, Admits, Offered, Appended;
    var n, seen := Next(st, me, Posts(f, community, now)), st.desk.seen;
    forall i | 0 <= i < |st.taken|
      ensures Remembers(Offered(seen, f.id, f.sent, now), st.taken[i].id, st.taken[i].sent, now)
      ensures Remembers(seen, st.taken[i].id, st.taken[i].sent, now)
      ensures Admits(seen, f.id, f.sent, now) ==> Apart(st.taken[i], f)
    {
      OfferedRemembers(seen, st.taken[i].id, st.taken[i].sent, st.clock, f.id, f.sent, now);
      Older(seen, st.taken[i].id, st.taken[i].sent, st.clock, now);
    }
    OfferedBounded(seen, f.id, f.sent, now);
    if Admits(seen, f.id, f.sent, now) {
      NewRemembered(seen, f.id, f.sent, now);
    }
  }

  lemma FrameOf(b: Book, me: string, a: Arrival) returns (f: Frame)
    requires Welcome(b, me, a)
    ensures a.frame == Some(f)
  {
    f := a.frame.value;
  }

  lemma SeenAfter(d: Desk, me: string, a: Arrival)
    requires Welcome(d.book, me, a) && a.frame.Some?
    ensures
      var f := a.frame.value;
      && Delivered(d, me, a).desk.seen == Offered(d.seen, f.id, f.sent, a.now)
      && (Delivered(d, me, a).ok ==> Admits(d.seen, f.id, f.sent, a.now))
  {
    hide Welcome, Offered, Admits, Appended, Result;
  }

  lemma NewRemembered(seen: Table, id: string, sent: int, now: int)
    requires Admits(seen, id, sent, now)
    ensures Remembers(Offered(seen, id, sent, now), id, sent, now)
  {
  }

  lemma Older(seen: Table, id: string, sent: int, clock: int, now: int)
    requires Remembers(seen, id, sent, clock) && clock <= now
    ensures Remembers(seen, id, sent, now)
  {
  }

  /** Nobody who was accepted or blocked becomes a stranger again. */
  lemma MetStays(b: Book, me: string, m: Move, log: Log)
    requires LinesOk(b, log) && Result(b, me, m).Some?
    ensures LinesOk(Result(b, me, m).value, log)
  {
    hide Result;
    forall p | Met(StateOf(b, p)) ensures Met(StateOf(Result(b, me, m).value, p)) {
      StateMoves(b, me, m, p);
    }
  }

  lemma PushedLines(b: Book, log: Log, k: Conversation, e: Item<Line>)
    requires LinesOk(b, log) && Pushed(log, k, e).Some?
    requires k.Direct? && !e.value.outgoing ==> e.value.from == k.peer && Met(StateOf(b, k.peer))
    ensures LinesOk(b, Pushed(log, k, e).value)
  {
    hide StateOf;
    var n := Pushed(log, k, e).value;
    forall p, i | Direct(p) in n.logs && 0 <= i < |n.logs[Direct(p)]| && !n.logs[Direct(p)][i].value.outgoing
      ensures n.logs[Direct(p)][i].value.from == p && Met(StateOf(b, p))
    {
      if Direct(p) == k {
        var v := ListOf(log.logs, k) + [e];
        var j := if |v| > MAX_CONVERSATION_MESSAGES then i + 1 else i;
        assert n.logs[k][i] == v[j];
        if j < |v| - 1 {
          assert v[j] == log.logs[k][j];
        }
      }
    }
  }

  lemma AppendedLines(b: Book, log: Log, f: Frame, peer: string, outgoing: bool)
    requires LinesOk(b, log) && Appended(log, f, peer, outgoing).Some?
    requires !outgoing && !f.kind.GroupText? && !f.kind.SwapOffer? ==> Met(StateOf(b, f.from))
    ensures LinesOk(b, Appended(log, f, peer, outgoing).value)
  {
    hide LinesOk, Pushed;
    PushedLines(b, log, FiledUnder(f, peer, outgoing).value, LineOf(f, outgoing));
  }

  /** What a delivery does to the three tables, in terms of their own operations. */
  lemma DeliveredIs(d: Desk, me: string, a: Arrival)
    ensures
      var n, mv := Delivered(d, me, a).desk, Moved(d, me, a);
      && (mv == [] ==> n.book == d.book)
      && (mv != [] ==> |mv| == 1 && Result(d.book, me, mv[0]) == Some(n.book))
      && (n.log == d.log ||
          (&& a.frame.Some? && Filed(d.log, a.frame.value) == Some(n.log)
           && (a.frame.value.kind.GroupText? || Met(StateOf(n.book, a.frame.value.from)))))
  {
    hide Offered, Admits, Appended, IncomingInvite, NoteGroupInvite;
    if Welcome(d.book, me, a) {
      var f := a.frame.value;
      assert Logs(f.kind) && !f.kind.GroupText? ==> StateOf(d.book, f.from).Accepted? || StateOf(d.book, f.from).InviteOut?;
    }
  }

  lemma ArrivesKeeps(st: State, me: string, a: Arrival)
    requires Inv(st, me) && st.clock <= a.now
    ensures Inv(Next(st, me, Arrives(a)), me)
  {
    hide Rosters.Inv, TakenOk, LinesOk, LogOk, Delivered, Moved, Appended, Result;
    var n, mv := Next(st, me, Arrives(a)), Moved(st.desk, me, a);
    ArrivesTaken(st, me, a);
    DeliveredIs(st.desk, me, a);
    if mv == [] {
      assert st.moves + mv == st.moves;
    } else {
      Rosters.NextKeeps(Rosters.Run(st.desk.book, st.moves), me, mv[0]);
      assert mv == [mv[0]];
      MetStays(st.desk.book, me, mv[0], st.desk.log);
    }
    assert LinesOk(n.desk.book, st.desk.log);
    if n.desk.log != st.desk.log {
      var f := a.frame.value;
      var peer := if f.kind.GroupText? then "" else f.from;
      AppendedOk(st.desk.log, f, peer, false);
      AppendedLines(n.desk.book, st.desk.log, f, peer, false);
    }
  }

  lemma PostsKeeps(st: State, me: string, f: Frame, community: string, now: int)
    requires Inv(st, me) && st.clock <= now
    ensures Inv(Next(st, me, Posts(f, community, now)), me)
  {
    hide Rosters.Inv, TakenOk, LinesOk, LogOk, Appended, Offered, Admits;
    PostsTaken(st, me, f, community, now);
    if (f.kind.GroupText? || f.kind.SwapOffer?) && Appended(st.desk.log, f, "", f.from == me).Some? {
      AppendedOk(st.desk.log, f, "", f.from == me);
      AppendedLines(st.desk.book, st.desk.log, f, "", f.from == me);
    }
  }

  lemma MovesKeeps(st: State, me: string, m: Move)
    requires Inv(st, me)
    ensures Inv(Next(st, me, Moves(m)), me)
  {
    hide Rosters.Inv, LinesOk, LogOk, Result, Remembers;
    if Result(st.desk.book, me, m).Some? {
      Rosters.NextKeeps(Rosters.Run(st.desk.book, st.moves), me, m);
      MetStays(st.desk.book, me, m, st.desk.log);
    }
  }

  lemma LogKeeps(st: State, me: string, log: Log)
    requires Inv(st, me) && LogOk(log) && LinesOk(st.desk.book, log)
    ensures Inv(st.(desk := st.desk.(log := log)), me)
  {
    hide Rosters.Inv, LinesOk, LogOk, Remembers;
  }

  lemma ForgottenLines(b: Book, log: Log, k: Conversation)
    requires LinesOk(b, log)
    ensures LinesOk(b, Forgotten(log, k))
  {
  }

  lemma NextKeeps(st: State, me: string, e: Event)
    requires Inv(st, me)
    ensures Inv(Next(st, me, e), me)
  {
    hide Rosters.Inv, TakenOk, LinesOk, LogOk, Delivered, Moved, Appended, Result, Forgotten;
    match e
    case Arrives(a) =>
      if st.clock <= a.now {
        ArrivesKeeps(st, me, a);
      }
    case Posts(f, community, now) =>
      if st.clock <= now {
        PostsKeeps(st, me, f, community, now);
      }
    case Moves(m) => MovesKeeps(st, me, m);
    case Says(f, peer) =>
      if Appended(st.desk.log, f, peer, true).Some? {
        AppendedOk(st.desk.log, f, peer, true);
        AppendedLines(st.desk.book, st.desk.log, f, peer, true);
        LogKeeps(st, me, Appended(st.desk.log, f, peer, true).value);
      }
    case Forgets(k) =>
      ForgottenOk(st.desk.log, k);
      ForgottenLines(st.desk.book, st.desk.log, k);
      LogKeeps(st, me, Forgotten(st.desk.log, k));
    case Wipes =>
      EmptyOk(st.desk.book);
      LogKeeps(st, me, EmptyLog);
  }

  lemma EmptyOk(b: Book)
    ensures LogOk(EmptyLog) && LinesOk(b, EmptyLog)
  {
  }

  lemma {:induction false} RunKeeps(clock: int, me: string, events: seq<Event>)
    ensures Inv(Run(clock, me, events), me)
    decreases |events|
  {
    if events == [] {
      Rosters.RunKeeps(me, []);
      EmptyOk(EmptyBook);
    } else {
      hide Inv, Next;
      RunKeeps(clock, me, events[..|events| - 1]);
      NextKeeps(Run(clock, me, events[..|events| - 1]), me, events[|events| - 1]);
    }
  }

  // ---- the main results -----------------------------------------------------------------------------

  /** Over a whole run any frame is taken at most once, by delivery or as a post, although
      ids are pruned and conversations forgotten, and the replay table never outgrows its
      cap. */
  lemma AtMostOnce(clock: int, me: string, events: seq<Event>)
    ensures
      var end := Run(clock, me, events);
      && (forall i, j :: 0 <= i < j < |end.taken| ==> Apart(end.taken[i], end.taken[j]))
      && |end.desk.seen| <= MAX_SEEN_FRAMES
  {
    hide Run;
    RunKeeps(clock, me, events);
  }

  /** Consent and the logs agree in every run: whoever has a line of theirs in a direct
      conversation was accepted, by a yes from both sides, or has been blocked since. */
  lemma LinesNeedConsent(clock: int, me: string, events: seq<Event>, p: string, i: nat)
    requires
      var log := Run(clock, me, events).desk.log;
      Direct(p) in log.logs && i < |log.logs[Direct(p)]| && !log.logs[Direct(p)][i].value.outgoing
    ensures
      var end := Run(clock, me, events);
      && end.desk.log.logs[Direct(p)][i].value.from == p
      && (StateOf(end.desk.book, p).Blocked? ||
          (StateOf(end.desk.book, p).Accepted? && Ours(end.moves, p) && Theirs(end.moves, p)))
  {
    hide Run;
    RunKeeps(clock, me, events);
  }

  predicate IdAt(log: Log, k: Conversation, i: int, x: string) {
    k in log.logs && 0 <= i < |log.logs[k]| && log.logs[k][i].id == x
  }

  /** The seen-id index is the set of ids in the logs, all distinct, in every run. */
  lemma IndexAlwaysExact(clock: int, me: string, events: seq<Event>)
    ensures
      var log := Run(clock, me, events).desk.log;
      && (forall x :: x in log.seen <==> exists k, i :: IdAt(log, k, i, x))
      && (forall k, i, l, j, x :: IdAt(log, k, i, x) && IdAt(log, l, j, x) ==> k == l && i == j)
  {
    hide Run;
    RunKeeps(clock, me, events);
    IdsExact(Run(clock, me, events).desk.log);
  }

  lemma IdsExact(log: Log)
    requires LogOk(log)
    ensures forall x :: x in log.seen <==> exists k, i :: IdAt(log, k, i, x)
    ensures forall k, i, l, j, x :: IdAt(log, k, i, x) && IdAt(log, l, j, x) ==> k == l && i == j
  {
    var p := IdMap(log.logs);
    forall x ensures x in log.seen <==> exists k, i :: IdAt(log, k, i, x) {
      SeenIsLogged(log, x);
      if x in log.seen {
        var k, i :| k in log.logs && 0 <= i < |log.logs[k]| && log.logs[k][i].id == x;
        assert IdAt(log, k, i, x);
      }
    }
    forall k, i, l, j, x | IdAt(log, k, i, x) && IdAt(log, l, j, x) ensures k == l && i == j {
      assert x in p[k] && x in p[l];
      assert NoDup(log.logs[k]);
    }
  }

  // ---- the blocked ----------------------------------------------------------------------------------

  /** Something that somebody sent, to us or into a community. */
  predicate SentBy(e: Event, p: string) {
    (e.Arrives? && e.a.frame.Some? && e.a.frame.value.from == p) || (e.Posts? && e.f.from == p)
  }

  /** The events without what `p` sent. */
  function Silenced(events: seq<Event>, p: string): seq<Event> {
    if events == [] then []
    else Silenced(events[..|events| - 1], p) + if SentBy(events[|events| - 1], p) then [] else [events[|events| - 1]]
  }

  function TimeOf(e: Event, clock: int): int {
    match e
    case Arrives(a) => a.now
    case Posts(_, _, now) => now
    case _ => clock
  }

  function Latest(clock: int, events: seq<Event>): int {
    if events == [] then clock else TimeOf(events[|events| - 1], Latest(clock, events[..|events| - 1]))
  }

  /** No event is before the one that came before it. */
  predicate InTime(clock: int, events: seq<Event>) {
    events == [] ||
    (InTime(clock, events[..|events| - 1])
     && TimeOf(events[|events| - 1], Latest(clock, events[..|events| - 1])) >= Latest(clock, events[..|events| - 1]))
  }

  lemma BlockedSent(st: State, me: string, e: Event, p: string)
    requires StateOf(st.desk.book, p).Blocked? && SentBy(e, p)
    ensures var n := Next(st, me, e); n.desk == st.desk && n.moves == st.moves && n.taken == st.taken
  {
  }

  lemma BlockedStays(st: State, me: string, e: Event, p: string)
    requires StateOf(st.desk.book, p).Blocked?
    ensures StateOf(Next(st, me, e).desk.book, p).Blocked?
  {
    hide Delivered, Moved, Appended, Result, StateOf;
    match e
    case Arrives(a) =>
      DeliveredIs(st.desk, me, a);
      var mv := Moved(st.desk, me, a);
      if mv != [] {
        StateMoves(st.desk.book, me, mv[0], p);
      }
    case Moves(m) =>
      if Result(st.desk.book, me, m).Some? {
        StateMoves(st.desk.book, me, m, p);
      }
    case _ =>
  }

  /** Two states that differ in their clocks only. */
  predicate Alike(s: State, t: State) { s.desk == t.desk && s.moves == t.moves && s.taken == t.taken && t.clock <= s.clock }

  lemma StepAlike(s: State, t: State, me: string, e: Event)
    requires Alike(s, t) && s.clock <= TimeOf(e, s.clock)
    ensures Alike(Next(s, me, e), Next(t, me, e)) && Next(s, me, e).clock == TimeOf(e, s.clock)
  {
    hide Delivered, Moved, Posted, Appended, Result, Forgotten;
  }

  /** Whatever somebody blocked goes on sending, of any kind and at any moment, every table,
      every later line and every later frame are the same as if it had never been sent. */
  lemma {:induction false} BlockedUnheard(clock: int, me: string, events: seq<Event>, more: seq<Event>, p: string)
    requires StateOf(Run(clock, me, events).desk.book, p).Blocked? && InTime(Run(clock, me, events).clock, more)
    ensures
      var s, t := Run(clock, me, events + more), Run(clock, me, events + Silenced(more, p));
      Alike(s, t) && StateOf(s.desk.book, p).Blocked? && s.clock == Latest(Run(clock, me, events).clock, more)
    decreases |more|
  {
    hide Next, StateOf, SentBy, TimeOf;
    if more == [] {
      assert events + more == events && events + Silenced(more, p) == events;
    } else {
      var k := |more| - 1;
      var e := more[k];
      BlockedUnheard(clock, me, events, more[..k], p);
      var s, t := Run(clock, me, events + more[..k]), Run(clock, me, events + Silenced(more[..k], p));
      Extended(clock, me, events, more[..k], e);
      assert more[..k] + [e] == more;
      BlockedStays(s, me, e, p);
      StepAlike(s, t, me, e);
      if SentBy(e, p) {
        BlockedSent(s, me, e, p);
        assert Silenced(more[..k], p) + [] == Silenced(more[..k], p);
      } else {
        Extended(clock, me, events, Silenced(more[..k], p), e);
      }
    }
  }

  lemma Extended(clock: int, me: string, events: seq<Event>, more: seq<Event>, e: Event)
    ensures Run(clock, me, events + (more + [e])) == Next(Run(clock, me, events + more), me, e)
  {
    hide Next;
    var all := events + (more + [e]);
    assert all[..|all| - 1] == events + more && all[|all| - 1] == e;
  }
}
