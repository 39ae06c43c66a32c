/** The encrypted link between two chats: the session keys and the forward ratchet of
    src/btfchan.cpp under the open-or-closed link of src/btfchatlink.cpp.  Keys are terms
    over the hash's labels, so two keys are equal only if they were derived alike, and a
    sealed box opens only under its own key, nonce and counter.  Counters wrap at 2^64,
    as the code's do. */
module Channel {
  import opened Options
  import opened Powers
  import opened Regroup

  datatype Key =
    | Root(secrets: seq<string>, transcript: string)
    | ClientToServer(root: Key)
    | ServerToClient(root: Key)
    | Message(chain: Key, counter: seq<nat>)
    | Stepped(chain: Key)

  datatype Box = Box(key: Key, nonce: seq<nat>, aad: seq<nat>, plain: string) | Noise(length: nat)

  /** What follows the length on the wire: the counter's bytes and a sealed box.  `Short`
      is a body too short to hold a counter and a tag. */
  datatype Body = Short(length: nat) | Body(counter: seq<nat>, box: Box)

  const CTR := 8
  const MAC := 16
  const TWO_64: nat := 0x1_0000_0000_0000_0000
  const MAX_FRAME := 16384
  const MAX_BODY := MAX_FRAME + 64

  ghost predicate IsCounter(b: seq<nat>) { |b| == CTR && Below(256, b) }

  function Length(b: Body): nat {
    match b
    case Short(n) => n
    case Body(ctr, box) => |ctr| + if box.Box? then |box.plain| + MAC else box.length
  }

  // ---- the counter's eight bytes ----------------------------------------------------------

  function CounterBytes(n: nat): (b: seq<nat>)
    ensures |b| == CTR && Below(256, b)
  {
    Digits(256, CTR, n)
  }

  lemma Bytes64()
    ensures Pow2(8 * CTR) == TWO_64 && Pow2(8) == 256
  {
    Pow2Small();
    assert 8 * CTR == 64;
    Pow2Add(32, 32);
    Pow2Add(16, 16);
  }

  lemma CounterRoundTrip(n: nat)
    requires n < TWO_64
    ensures Val(256, CounterBytes(n)) == n
  {
    Bytes64();
    ValOfDigits(8, CTR, n);
  }

  lemma {:induction false} DigitAt(k: nat, v: nat, i: nat)
    requires i < k
    ensures Digits(256, k, v)[i] == Over(v, Pow256(k - 1 - i)) % 256
    decreases k
  {
    if i < k - 1 {
      DigitAt(k - 1, Over(v, 256), i);
      DivDiv(v, 256, Pow256(k - 2 - i));
      assert Pow256(k - 1 - i) == 256 * Pow256(k - 2 - i);
    } else {
      assert Pow256(0) == 1 && Over(v, 1) == v;
    }
  }

  method WriteCounter(n: nat) returns (b: seq<nat>)
    ensures b == CounterBytes(n)
  {
    b := [];
    for i := 0 to CTR
      invariant b == CounterBytes(n)[..i]
    {
      DigitAt(CTR, n, i);
      b := b + [Over(n, Pow256(CTR - 1 - i)) % 256];
    }
  }

  method ReadCounter(b: seq<nat>) returns (n: nat)
    ensures n == Val(256, b)
  {
    n := 0;
    for i := 0 to |b|
      invariant n == Val(256, b[..i])
    {
      assert b[..i + 1] == b[..i] + [b[i]];
      ValPush(256, b[..i], b[i]);
      n := Times(n, 256) + b[i];
    }
    assert b[..|b|] == b;
  }

  // ---- one session --------------------------------------------------------------------------

  datatype Session = Session(ckSend: Key, ckRecv: Key, nSend: nat, nRecv: nat)

  /** All zeros: a session that was cleared. */
  const Zeros := Root([], "")
  const Cleared := Session(Zeros, Zeros, 0, 0)

  /** The chain a side seals with, before its first frame. */
  function Start(client: bool, root: Key): Key {
    if client then ClientToServer(root) else ServerToClient(root)
  }

  function Derived(client: bool, root: Key): Session {
    Session(Start(client, root), Start(!client, root), 0, 0)
  }

  function Seal(s: Session, plain: string): Body {
    var ctr := CounterBytes(s.nSend);
    Body(ctr, Box(Message(s.ckSend, ctr), ctr, ctr, plain))
  }

  function AfterSeal(s: Session): Session {
    s.(ckSend := Stepped(s.ckSend), nSend := (s.nSend + 1) % TWO_64)
  }

  function Opened(s: Session, b: Body): Option<string> {
    if b.Short? || Length(b) < CTR + MAC then None
    else if Val(256, b.counter) != s.nRecv then None
    else if b.box.Noise? then None
    else if b.box.key != Message(s.ckRecv, CounterBytes(s.nRecv)) then None
    else if b.box.nonce != b.counter || b.box.aad != b.counter then None
    else Some(b.box.plain)
  }

  function AfterOpen(s: Session): Session {
    s.(ckRecv := Stepped(s.ckRecv), nRecv := (s.nRecv + 1) % TWO_64)
  }

  /** `ChanSession`: both functions overwrite the chain keys in place. */
  class ChanSession {
    var ckSend: Key
    var ckRecv: Key
    var nSend: nat
    var nRecv: nat

    function Value(): Session
      reads this
    {
      Session(ckSend, ckRecv, nSend, nRecv)
    }

    constructor ()
      ensures Value() == Cleared
    {
      ckSend, ckRecv, nSend, nRecv := Zeros, Zeros, 0, 0;
    }

    method Clear()
      modifies this
      ensures Value() == Cleared
    {
      ckSend, ckRecv, nSend, nRecv := Zeros, Zeros, 0, 0;
    }

    method Derive(client: bool, secrets: seq<string>, transcript: string)
      modifies this
      ensures Value() == Derived(client, Root(secrets, transcript))
    {
      var root := Root(secrets, transcript);
      var c2s, s2c := ClientToServer(root), ServerToClient(root);
      ckSend := if client then c2s else s2c;
      ckRecv := if client then s2c else c2s;
      nSend, nRecv := 0, 0;
    }

    /** The length written before the body is the body's length. */
    method EncryptFrame(plain: string) returns (length: nat, body: Body)
      modifies this
      ensures body == Seal(old(Value()), plain) && Value() == AfterSeal(old(Value()))
      ensures length == Length(body)
    {
      var ctr := WriteCounter(nSend);
      var mk := Message(ckSend, ctr);
      ckSend := Stepped(ckSend);
      length := CTR + |plain| + MAC;
      body := Body(ctr, Box(mk, ctr, ctr, plain));
      nSend := (nSend + 1) % TWO_64;
    }

    /** A body that is refused leaves keys and counters where they were. */
    method DecryptBody(body: Body) returns (out: Option<string>)
      modifies this
      ensures out == Opened(old(Value()), body)
      ensures Value() == if out.Some? then AfterOpen(old(Value())) else old(Value())
    {
      out := None;
      if body.Short? || Length(body) < CTR + MAC {
        return;
      }
      var counter := ReadCounter(body.counter);
      if counter != nRecv {
        return;
      }
      var mk, next := Message(ckRecv, CounterBytes(counter)), Stepped(ckRecv);
      if body.box.Noise? || body.box.key != mk || body.box.nonce != body.counter || body.box.aad != body.counter {
        return;
      }
      ckRecv := next;
      nRecv := (nRecv + 1) % TWO_64;
      out := Some(body.box.plain);
    }
  }

  // ---- the link -----------------------------------------------------------------------------

  /** What a read gives: nothing, or a length and then the body, which may be cut short. */
  datatype Input = Nothing | Got(length: nat, body: Option<Body>)

  datatype End = End(open: bool, sess: Session)

  const Closed := End(false, Cleared)

  predicate Sendable(e: End, plain: string) { e.open && 0 < |plain| <= MAX_FRAME }

  function AfterSend(e: End, plain: string, written: bool): End {
    if !Sendable(e, plain) then e else if written then e.(sess := AfterSeal(e.sess)) else Closed
  }

  function Receives(e: End, input: Input): Option<string> {
    if !e.open || input.Nothing? || input.length < CTR + MAC || input.length > MAX_BODY || input.body.None? then None
    else Opened(e.sess, input.body.value)
  }

  function AfterReceive(e: End, input: Input): End {
    if !e.open then e
    else if Receives(e, input).Some? then e.(sess := AfterOpen(e.sess)) else Closed
  }

  class Link {
    const sess: ChanSession
    var open: bool

    function Value(): End
      reads this, sess
    {
      End(open, sess.Value())
    }

    constructor ()
      ensures Value() == Closed && fresh(sess)
    {
      sess := new ChanSession();
      open := false;
    }

    method Close()
      modifies this, sess
      ensures Value() == Closed
    {
      sess.Clear();
      open := false;
    }

    /** `written` is whether the stream takes the bytes. */
    method SendFrame(plain: string, written: bool) returns (ok: bool, frame: Option<(nat, Body)>)
      modifies this, sess
      ensures Value() == AfterSend(old(Value()), plain, written)
      ensures ok == (Sendable(old(Value()), plain) && written)
      ensures frame.Some? <==> Sendable(old(Value()), plain)
      ensures frame.Some? ==> frame.value.1 == Seal(old(Value()).sess, plain)
      ensures frame.Some? ==> frame.value.0 == Length(frame.value.1) && CTR + MAC < frame.value.0 <= MAX_BODY
    {
      ok, frame := false, None;
      if !open || plain == "" || |plain| > MAX_FRAME {
        return;
      }
      var length, body := sess.EncryptFrame(plain);
      frame := Some((length, body));
      if !written {
        Close();
        return;
      }
      ok := true;
    }

    method RecvFrame(input: Input) returns (out: Option<string>)
      modifies this, sess
      ensures out == Receives(old(Value()), input)
      ensures Value() == AfterReceive(old(Value()), input)
    {
      out := None;
      if !open {
        return;
      }
      if input.Nothing? || input.length < CTR + MAC || input.length > MAX_BODY || input.body.None? {
        Close();
        return;
      }
      out := sess.DecryptBody(input.body.value);
      if out.None? {
        Close();
      }
    }
  }
}
