/** Two links joined by an adversary who sees every frame, drops, repeats, reorders and
    forges as it likes, and seals boxes of its own under any key but the two sessions'
    frame keys (src/btfchan.cpp, src/btfchatlink.cpp). */
module ChannelRuns {
  import opened Options
  import opened Regroup
  import opened Channel

  /** One end, with the handshake's root, all it sealed and all it accepted. */
  datatype Party = Party(client: bool, root: Key, end: End, sent: seq<string>, accepted: seq<string>)

  datatype State = State(a: Party, b: Party, boxes: seq<Box>)

  datatype Event =
    | Send(client: bool, plain: string, written: bool)
    | Receive(client: bool, input: Input)

  function Joined(client: bool, root: Key): Party {
    Party(client, root, End(true, Derived(client, root)), [], [])
  }

  /** The client's and the endpoint's end of two handshakes: one handshake if the roots are
      the same. */
  function Handshakes(a: Key, b: Key): State {
    State(Joined(true, a), Joined(false, b), [])
  }

  function Chain(client: bool, root: Key, k: nat): Key {
    if k == 0 then Start(client, root) else Stepped(Chain(client, root, k - 1))
  }

  function FrameKey(client: bool, root: Key, k: nat): Key {
    Message(Chain(client, root, k), CounterBytes(k % TWO_64))
  }

  function FrameBox(client: bool, root: Key, k: nat, plain: string): Box {
    var ctr := CounterBytes(k % TWO_64);
    Box(FrameKey(client, root, k), ctr, ctr, plain)
  }

  ghost predicate Guarded(st: State, key: Key) {
    exists client, root, k {:trigger Chain(client, root, k)} ::
      (root == st.a.root || root == st.b.root) && key.Message? && key.chain == Chain(client, root, k)
  }

  /** What the adversary can put on a wire. */
  ghost predicate Allowed(st: State, body: Body) {
    body.Body? ==>
      && IsCounter(body.counter)
      && (body.box.Noise? || body.box in st.boxes || !Guarded(st, body.box.key))
  }

  function SendBy(p: Party, plain: string, written: bool): Party {
    p.(end := AfterSend(p.end, plain, written),
    sent := if Sendable(p.end, plain) then p.sent + [plain] else p.sent)
  }

  function ReceiveBy(p: Party, input: Input): Party {
    var out := Receives(p.end, input);
    p.(end := AfterReceive(p.end, input),
    accepted := if out.Some? then p.accepted + [out.value] else p.accepted)
  }

  function BoxesOf(p: Party, plain: string): seq<Box> {
    if Sendable(p.end, plain) then [Seal(p.end.sess, plain).box] else []
  }

  ghost function Next(st: State, e: Event): State {
    match e
    case Send(true, plain, written) =>
      st.(a := SendBy(st.a, plain, written), boxes := st.boxes + BoxesOf(st.a, plain))
    case Send(false, plain, written) =>
      st.(b := SendBy(st.b, plain, written), boxes := st.boxes + BoxesOf(st.b, plain))
    case Receive(client, input) =>
      if input.Got? && input.body.Some? && !Allowed(st, input.body.value) then st
      else if client then st.(a := ReceiveBy(st.a, input))
      else st.(b := ReceiveBy(st.b, input))
  }

  ghost function Run(st: State, events: seq<Event>): State {
    if events == [] then st else Next(Run(st, events[..|events| - 1]), events[|events| - 1])
  }

  // ---- keys never meet ------------------------------------------------------------------------

  lemma {:induction false} ChainUnique(c1: bool, r1: Key, k1: nat, c2: bool, r2: Key, k2: nat)
    requires Chain(c1, r1, k1) == Chain(c2, r2, k2)
    ensures c1 == c2 && r1 == r2 && k1 == k2
    decreases k1
  {
    if k1 > 0 && k2 > 0 {
      ChainUnique(c1, r1, k1 - 1, c2, r2, k2 - 1);
    }
  }

  lemma KeyUnique(c1: bool, r1: Key, k1: nat, c2: bool, r2: Key, k2: nat)
    requires FrameKey(c1, r1, k1) == FrameKey(c2, r2, k2)
    ensures c1 == c2 && r1 == r2 && k1 == k2
  {
    ChainUnique(c1, r1, k1, c2, r2, k2);
  }

  // ---- the invariant ----------------------------------------------------------------------------

  ghost predicate SessionOk(p: Party) {
    p.end.open ==>
      p.end.sess == Session(Chain(p.client, p.root, |p.sent|), Chain(!p.client, p.root, |p.accepted|),
                            |p.sent| % TWO_64, |p.accepted| % TWO_64)
  }

  ghost predicate PrefixOk(p: Party, q: Party) {
    && p.accepted <= q.sent
    && (p.accepted != [] ==> p.root == q.root)
  }

  ghost predicate SealedBy(p: Party, box: Box) {
    exists k: nat ::
      k < |p.sent| && box == FrameBox(p.client, p.root, k, p.sent[k])
  }

  predicate Apart(x: Box, y: Box) { x.Box? && y.Box? && x.key != y.key }

  ghost predicate BoxesOk(st: State) {
    && (forall i :: 0 <= i < |st.boxes| ==> SealedBy(st.a, st.boxes[i]) || SealedBy(st.b, st.boxes[i]))
    && (forall i, j :: 0 <= i < j < |st.boxes| ==> Apart(st.boxes[i], st.boxes[j]))
  }

  ghost predicate Inv(st: State) {
    && st.a.client && !st.b.client
    && SessionOk(st.a) && SessionOk(st.b) && PrefixOk(st.a, st.b) && PrefixOk(st.b, st.a)
    && BoxesOk(st) && Published(st.a, st.boxes) && Published(st.b, st.boxes)
  }

  /** Everything a side sealed is in the adversary's hands. */
  ghost predicate Published(p: Party, boxes: seq<Box>) {
    forall k: nat ::
      k < |p.sent| ==> FrameBox(p.client, p.root, k, p.sent[k]) in boxes
  }

  lemma SealIs(p: Party, plain: string)
    requires SessionOk(p) && p.end.open
    ensures Seal(p.end.sess, plain).box == FrameBox(p.client, p.root, |p.sent|, plain)
  {
  }

  lemma SealedLonger(p: Party, plain: string, written: bool, box: Box)
    requires SealedBy(p, box)
    ensures SealedBy(SendBy(p, plain, written), box)
  {
    var k: nat :| k < |p.sent| && box == FrameBox(p.client, p.root, k, p.sent[k]);
    var q := SendBy(p, plain, written);
    assert q.sent[k] == p.sent[k];
    assert box == FrameBox(q.client, q.root, k, q.sent[k]);
  }

  lemma SealedAt(p: Party, box: Box) returns (k: nat)
    requires SealedBy(p, box)
    ensures box.Box? && k < |p.sent| && box.key == FrameKey(p.client, p.root, k)
    ensures box == FrameBox(p.client, p.root, k, p.sent[k])
  {
    hide CounterBytes;
    k :| k < |p.sent| && box == FrameBox(p.client, p.root, k, p.sent[k]);
  }

  lemma NewKey(p: Party, q: Party, box: Box)
    requires p.client != q.client && (SealedBy(p, box) || SealedBy(q, box))
    ensures box.Box? && box.key != FrameKey(p.client, p.root, |p.sent|)
  {
    hide FrameKey, SealedBy;
    var s := if SealedBy(p, box) then p else q;
    var k := SealedAt(s, box);
    if box.key == FrameKey(p.client, p.root, |p.sent|) {
      KeyUnique(s.client, s.root, k, p.client, p.root, |p.sent|);
    }
  }

  lemma SendSession(p: Party, plain: string, written: bool)
    requires SessionOk(p)
    ensures SessionOk(SendBy(p, plain, written))
  {
  }

  /** Sealing one more frame, for the side `p` whose peer is `q`. */
  lemma SendBoxes(p: Party, q: Party, boxes: seq<Box>, plain: string, written: bool)
    requires SessionOk(p) && p.client != q.client
    requires forall i :: 0 <= i < |boxes| ==> SealedBy(p, boxes[i]) || SealedBy(q, boxes[i])
    requires forall i, j :: 0 <= i < j < |boxes| ==> Apart(boxes[i], boxes[j])
    ensures
      var n, p' := boxes + BoxesOf(p, plain), SendBy(p, plain, written);
      && (forall i :: 0 <= i < |n| ==> SealedBy(p', n[i]) || SealedBy(q, n[i]))
      && (forall i, j :: 0 <= i < j < |n| ==> Apart(n[i], n[j]))
  {
    hide CounterBytes, Seal;
    var p' := SendBy(p, plain, written);
    var n := boxes + BoxesOf(p, plain);
    if Sendable(p.end, plain) {
      SealIs(p, plain);
      assert p'.sent[|p.sent|] == plain;
      assert n[|boxes|] == FrameBox(p'.client, p'.root, |p.sent|, p'.sent[|p.sent|]);
      assert SealedBy(p', n[|boxes|]);
      assert n[|boxes|].Box? && n[|boxes|].key == FrameKey(p.client, p.root, |p.sent|);
      forall i | 0 <= i < |boxes| ensures boxes[i].Box? && boxes[i].key != FrameKey(p.client, p.root, |p.sent|) {
        NewKey(p, q, boxes[i]);
      }
    }
    forall i, j | 0 <= i < j < |n| ensures Apart(n[i], n[j]) {
      assert n[i] == boxes[i];
      if j < |boxes| {
        assert n[j] == boxes[j];
      }
    }
    forall i | 0 <= i < |boxes| ensures SealedBy(p', n[i]) || SealedBy(q, n[i]) {
      assert n[i] == boxes[i];
      if SealedBy(p, boxes[i]) {
        SealedLonger(p, plain, written, boxes[i]);
      }
    }
  }

  /** Against everything the adversary may send, a side accepts exactly the next frame its
      peer sealed, and only when both ends come from one handshake. */
  lemma AcceptsExactly(p: Party, q: Party, st: State, body: Body)
    requires {p, q} == {st.a, st.b} && p.client != q.client
    requires SessionOk(p) && p.end.open && BoxesOk(st) && Published(q, st.boxes) && Allowed(st, body)
    ensures
      var k := |p.accepted|;
      Opened(p.end.sess, body).Some? <==>
      && p.root == q.root && k < |q.sent|
      && body == Body(CounterBytes(k % TWO_64), FrameBox(q.client, q.root, k, q.sent[k]))
    ensures Opened(p.end.sess, body).Some? ==> Opened(p.end.sess, body).value == q.sent[|p.accepted|]
  {
    hide CounterBytes, SealedBy;
    var k := |p.accepted|;
    CounterRoundTrip(k % TWO_64);
    if Opened(p.end.sess, body).Some? {
      var box := body.box;
      assert box.key == FrameKey(!p.client, p.root, k);
      assert Guarded(st, box.key);
      var i :| 0 <= i < |st.boxes| && st.boxes[i] == box;
      var s := if SealedBy(st.a, box) then st.a else st.b;
      var j := SealedAt(s, box);
      KeyUnique(!p.client, p.root, k, s.client, s.root, j);
      assert s == q;
      DigitsOfVal(256, body.counter);
    }
  }

  lemma SendPublished(p: Party, boxes: seq<Box>, plain: string, written: bool)
    requires SessionOk(p) && Published(p, boxes)
    ensures Published(SendBy(p, plain, written), boxes + BoxesOf(p, plain))
  {
    hide CounterBytes, Seal;
    var p', n := SendBy(p, plain, written), boxes + BoxesOf(p, plain);
    if Sendable(p.end, plain) {
      SealIs(p, plain);
      assert n[|boxes|] == FrameBox(p.client, p.root, |p.sent|, plain);
    }
    forall k: nat | k < |p'.sent| ensures FrameBox(p'.client, p'.root, k, p'.sent[k]) in n {
      if k < |p.sent| {
        assert FrameBox(p.client, p.root, k, p.sent[k]) in boxes;
      }
    }
  }

  lemma ReceiveKeeps(p: Party, q: Party, st: State, input: Input)
    requires Inv(st) && ((p == st.a && q == st.b) || (p == st.b && q == st.a))
    requires input.Got? && input.body.Some? ==> Allowed(st, input.body.value)
    ensures SessionOk(ReceiveBy(p, input)) && PrefixOk(ReceiveBy(p, input), q)
  {
    hide CounterBytes, BoxesOk, Opened, Published, SessionOk;
    if Receives(p.end, input).Some? {
      AcceptsExactly(p, q, st, input.body.value);
    }
    ReceiveSession(p, input);
  }

  lemma ReceiveSession(p: Party, input: Input)
    requires SessionOk(p)
    ensures SessionOk(ReceiveBy(p, input))
  {
    hide Opened;
  }

  lemma NextKeeps(st: State, e: Event)
    requires Inv(st)
    ensures Inv(Next(st, e))
  {
    hide CounterBytes, SessionOk, SealedBy, Published;
    match e
    case Send(client, plain, written) =>
      var p, q := if client then st.a else st.b, if client then st.b else st.a;
      SendSession(p, plain, written);
      SendBoxes(p, q, st.boxes, plain, written);
      SendPublished(p, st.boxes, plain, written);
      PublishedMore(q, st.boxes, BoxesOf(p, plain));
    case Receive(client, input) =>
      var p, q := if client then st.a else st.b, if client then st.b else st.a;
      if input.Got? && input.body.Some? && !Allowed(st, input.body.value) {
      } else {
        ReceiveKeeps(p, q, st, input);
        ReceiveFrame(p, input, st.boxes);
      }
  }

  lemma PublishedMore(p: Party, boxes: seq<Box>, more: seq<Box>)
    requires Published(p, boxes)
    ensures Published(p, boxes + more)
  {
  }

  lemma ReceiveFrame(p: Party, input: Input, boxes: seq<Box>)
    ensures var n := ReceiveBy(p, input);
            && (Published(p, boxes) ==> Published(n, boxes))
            && forall box {:trigger SealedBy(p, box)} {:trigger SealedBy(n, box)} :: SealedBy(p, box) <==> SealedBy(n, box)
  {
  }

  // ---- the main results ---------------------------------------------------------------------------

  lemma {:induction false} RunKeeps(st: State, events: seq<Event>)
    requires Inv(st)
    ensures Inv(Run(st, events))
    decreases |events|
  {
    hide Inv, Next;
    if events != [] {
      RunKeeps(st, events[..|events| - 1]);
      NextKeeps(Run(st, events[..|events| - 1]), events[|events| - 1]);
    }
  }

  lemma {:induction false} RunRoots(st: State, events: seq<Event>)
    ensures Run(st, events).a.root == st.a.root && Run(st, events).b.root == st.b.root
    decreases |events|
  {
    if events != [] {
      RunRoots(st, events[..|events| - 1]);
    }
  }

  /** Whatever the adversary does, each side has accepted a prefix of what the other sealed,
      in order, nothing twice and nothing else; with two different handshakes, nothing at
      all.  No frame key was ever used for two frames, not even past the counter's
      wrap-around. */
  lemma ChannelSafe(a: Key, b: Key, events: seq<Event>)
    ensures
      var end := Run(Handshakes(a, b), events);
      && end.b.accepted <= end.a.sent && end.a.accepted <= end.b.sent
      && (a != b ==> end.a.accepted == [] && end.b.accepted == [])
      && forall i, j :: 0 <= i < j < |end.boxes| ==> Apart(end.boxes[i], end.boxes[j])
  {
    hide CounterBytes;
    RunKeeps(Handshakes(a, b), events);
    RunRoots(Handshakes(a, b), events);
  }

  /** In every state a run reaches, an open side takes a body exactly if it is the next one
      its peer sealed in the same handshake. */
  lemma NextFrameOnly(a: Key, b: Key, events: seq<Event>, client: bool, body: Body)
    requires
      var st := Run(Handshakes(a, b), events);
      Allowed(st, body) && (if client then st.a else st.b).end.open
    ensures
      var st := Run(Handshakes(a, b), events);
      var p, q := if client then st.a else st.b, if client then st.b else st.a;
      var k := |p.accepted|;
      Opened(p.end.sess, body).Some? <==>
      && p.root == q.root && k < |q.sent|
      && body == Body(CounterBytes(k % TWO_64), FrameBox(q.client, q.root, k, q.sent[k]))
  {
    hide CounterBytes, Allowed;
    RunKeeps(Handshakes(a, b), events);
    var st := Run(Handshakes(a, b), events);
    AcceptsExactly(if client then st.a else st.b, if client then st.b else st.a, st, body);
  }
}
