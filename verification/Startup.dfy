/** The backend's startup response as the proxy relays it: frames of a type
    byte, a signed 32-bit length that counts itself, and a body, forwarded up to
    the first ReadyForQuery while the cancel key is noted. */
module Startup {
  import opened Wrappers

  newtype byte = x: int | 0 <= x < 256

  const KEY_DATA: byte := 75    // 'K'
  const READY: byte := 90       // 'Z'
  const MAX_KEY_DATA := 260

  // ------------------------------------------------------------------ message format

  datatype Message = Message(kind: byte, body: seq<byte>)

  /** Four bytes, most significant first. */
  function Word(n: nat): seq<byte>
    requires n < 0x1_0000_0000
  {
    var a := n / 0x100;
    var b := a / 0x100;
    [(b / 0x100) as byte, (b % 0x100) as byte, (a % 0x100) as byte, (n % 0x100) as byte]
  }

  function Unsigned(w: seq<byte>): (n: nat)
    requires |w| == 4
    ensures n < 0x1_0000_0000
  {
    w[0] as nat * 0x100_0000 + w[1] as nat * 0x1_0000 + w[2] as nat * 0x100 + w[3] as nat
  }

  /** As a two's complement 32-bit number. */
  function Signed(w: seq<byte>): int
    requires |w| == 4
  {
    if Unsigned(w) < 0x8000_0000 then Unsigned(w) else Unsigned(w) - 0x1_0000_0000
  }

  lemma WordValue(n: nat)
    requires n < 0x1_0000_0000
    ensures Unsigned(Word(n)) == n
  {
    var a := n / 0x100;
    var b := a / 0x100;
    assert n == a * 0x100 + n % 0x100 && a == b * 0x100 + a % 0x100 && b == b / 0x100 * 0x100 + b % 0x100;
  }

  predicate Encodable(m: Message) { |m.body| + 4 < 0x8000_0000 }

  function Encode(m: Message): seq<byte>
    requires Encodable(m)
  {
    [m.kind] + Word(|m.body| + 4) + m.body
  }

  function EncodeAll(ms: seq<Message>): seq<byte>
    requires forall m :: m in ms ==> Encodable(m)
  {
    if ms == [] then [] else Encode(ms[0]) + EncodeAll(ms[1..])
  }

  /** A BackendKeyData body the proxy notes: process id and 4 to 256 key bytes. */
  predicate IsKey(m: Message) { m.kind == KEY_DATA && 8 <= |m.body| <= MAX_KEY_DATA }

  /** The body of the last such message, or what was noted before. */
  function LastKey(ms: seq<Message>, noted: Option<seq<byte>>): Option<seq<byte>> {
    if ms == [] then noted else LastKey(ms[1..], if IsKey(ms[0]) then Some(ms[0].body) else noted)
  }

  // ------------------------------------------------------------------------ relaying

  datatype Relayed = Relayed(ready: bool, sent: nat, key: Option<seq<byte>>)

  /** What the relay does with everything the backend will send: how many bytes
      it passes on, whether it got to ReadyForQuery, and the key noted. */
  function Relay(src: seq<byte>, key: Option<seq<byte>>): (r: Relayed)
    ensures r.sent <= |src|
    decreases |src|
  {
    if |src| < 5 then Relayed(false, 0, key) else
    var n := Signed(src[1..5]) - 4;
    if n < 0 then Relayed(false, 0, key) else
    var m := Message(src[0], if 5 + n <= |src| then src[5..5 + n] else src[5..]);
    if 5 + n > |src| then Relayed(false, if src[0] == KEY_DATA && 8 <= n <= MAX_KEY_DATA then 5 else |src|, key) else
    var key' := if IsKey(m) then Some(m.body) else key;
    if src[0] == READY then Relayed(true, 5 + n, key') else
    var r := Relay(src[5 + n..], key');
    r.(sent := 5 + n + r.sent)
  }

  lemma FrameSplits(m: Message, rest: seq<byte>)
    requires Encodable(m)
    ensures var src := Encode(m) + rest; var n := |m.body|;
      |src| >= 5 + n && src[0] == m.kind && Signed(src[1..5]) - 4 == n && src[5..5 + n] == m.body &&
          src[5 + n..] == rest
  {
    var src := Encode(m) + rest;
    WordValue(|m.body| + 4);
    assert src[1..5] == Word(|m.body| + 4);
    assert src == [m.kind] + Word(|m.body| + 4) + m.body + rest;
  }

  /** Any startup response in PostgreSQL's message format is passed on byte for
      byte up to and including its ReadyForQuery, and the key noted is the body
      of its last acceptable BackendKeyData; what follows stays unread. */
  lemma {:induction false} RelayOfMessages(ms: seq<Message>, last: Message, rest: seq<byte>, key: Option<seq<byte>>)
    requires (forall m :: m in ms ==> Encodable(m) && m.kind != READY) && Encodable(last) && last.kind == READY
    ensures Relay(EncodeAll(ms) + Encode(last) + rest, key) ==
        Relayed(true, |EncodeAll(ms) + Encode(last)|, LastKey(ms, key))
  {
    hide Signed; hide Encode;
    if ms == [] {
      FrameSplits(last, rest);
      assert EncodeAll(ms) + Encode(last) + rest == Encode(last) + rest;
    } else {
      var tail := EncodeAll(ms[1..]) + Encode(last) + rest;
      FrameSplits(ms[0], tail);
      assert EncodeAll(ms) + Encode(last) + rest == Encode(ms[0]) + tail;
      RelayOfMessages(ms[1..], last, rest, if IsKey(ms[0]) then Some(ms[0].body) else key);
    }
  }

  /** Where the relay stops reading: the rest after the whole frames before
      ReadyForQuery. */
  function Tail(src: seq<byte>): (t: seq<byte>)
    ensures |t| <= |src|
    decreases |src|
  {
    if |src| < 5 || src[0] == READY then src else
    var n := Signed(src[1..5]) - 4;
    if n < 0 || 5 + n > |src| then src else Tail(src[5 + n..])
  }

  /** A tail that is passed on though it is cut short: none at all, or a frame
      whose header is sound and of whose body, if it is a key, nothing came. */
  predicate PassedOn(t: seq<byte>) {
    t == [] || (|t| >= 5 && Signed(t[1..5]) >= 4 &&
        (|t| == 5 || !(t[0] == KEY_DATA && 8 <= Signed(t[1..5]) - 4 <= MAX_KEY_DATA)))
  }

  /** When the exchange ends early the client gets every byte read exactly if the
      stream was cut between frames, after a header, or inside a body that is
      not a key. */
  lemma {:induction false} EarlyEndExactly(src: seq<byte>, key: Option<seq<byte>>)
    requires !Relay(src, key).ready
    ensures Relay(src, key).sent == |src| <==> PassedOn(Tail(src))
    decreases |src|
  {
    hide Signed;
    if |src| >= 5 {
      var n := Signed(src[1..5]) - 4;
      if 0 <= n && 5 + n <= |src| && src[0] != READY {
        var m := Message(src[0], src[5..5 + n]);
        EarlyEndExactly(src[5 + n..], if IsKey(m) then Some(m.body) else key);
      }
    }
  }

  /** Four bytes of a header are read and never reach the client. */
  lemma PartialHeaderLost()
    ensures Relay([82, 0, 0, 0], None) == Relayed(false, 0, None) && !PassedOn(Tail([82, 0, 0, 0]))
  {
  }

  /** The relay of a suffix is the rest of the relay of the whole. */
  ghost predicate Rest(src: seq<byte>, key0: Option<seq<byte>>, pos: nat, key: Option<seq<byte>>)
    requires pos <= |src|
  {
    var r := Relay(src[pos..], key);
    Relay(src, key0) == r.(sent := pos + r.sent)
  }

  lemma RestStep(src: seq<byte>, key0: Option<seq<byte>>, pos: nat, key: Option<seq<byte>>)
    requires pos + 5 <= |src| && Rest(src, key0, pos, key) && 0 <= Signed(src[pos + 1..pos + 5]) - 4 <= |src| - pos - 5
    ensures var n := Signed(src[pos + 1..pos + 5]) - 4;
      var key' := if IsKey(Message(src[pos], src[pos + 5..pos + 5 + n])) then Some(src[pos + 5..pos + 5 + n]) else key;
      if src[pos] == READY then Relay(src, key0) == Relayed(true, pos + 5 + n, key')
      else Rest(src, key0, pos + 5 + n, key')
  {
    hide Signed;
    var s, n := src[pos..], Signed(src[pos + 1..pos + 5]) - 4;
    assert s[1..5] == src[pos + 1..pos + 5] && s[5..5 + n] == src[pos + 5..pos + 5 + n] &&
        s[5 + n..] == src[pos + 5 + n..];
  }

  lemma RestStops(src: seq<byte>, key0: Option<seq<byte>>, pos: nat, key: Option<seq<byte>>)
    requires pos <= |src| && Rest(src, key0, pos, key)
    ensures |src| - pos < 5 ==> Relay(src, key0) == Relayed(false, pos, key)
    ensures pos + 5 <= |src| ==> var n := Signed(src[pos + 1..pos + 5]) - 4;
      && (n < 0 ==> Relay(src, key0) == Relayed(false, pos, key))
      && (n > |src| - pos - 5 ==>
          var sent := if src[pos] == KEY_DATA && 8 <= n <= MAX_KEY_DATA then pos + 5 else |src|;
          Relay(src, key0) == Relayed(false, sent, key))
  {
    hide Signed;
    var s := src[pos..];
    assert pos + 5 <= |src| ==> s[1..5] == src[pos + 1..pos + 5];
  }

  /** relayStartup.  src is all the backend sends before it closes or a deadline
      strikes; takes(i) says whether the i-th write or flush towards the client
      goes through, and cut how much of what is buffered a failing one delivers.
      What the client gets is always a prefix of src; with nothing failing it is
      exactly what Relay says, and success is never reported for less. */
  method RelayStartup(src: seq<byte>, key0: Option<seq<byte>>, takes: nat -> bool, cut: nat)
    returns (ok: bool, sent: seq<byte>, key: Option<seq<byte>>)
    ensures sent <= src
    ensures ok ==> Relay(src, key0).ready && sent == src[..Relay(src, key0).sent] && key == Relay(src, key0).key
    ensures (forall i :: takes(i)) ==>
      ok == Relay(src, key0).ready && sent == src[..Relay(src, key0).sent] && key == Relay(src, key0).key
  {
    hide Relay; hide Signed;
    var pos, i, w := 0, 0, [];
    key := key0;
    assert Rest(src, key0, pos, key) by { assert src[0..] == src; }
    while true
      invariant pos <= |src| && w == src[..pos] && Rest(src, key0, pos, key)
      decreases |src| - pos
    {
      RestStops(src, key0, pos, key);
      if !takes(i) {
        return false, Part(w, cut), key;
      }
      if |src| - pos < 5 {
        return false, Delivered(w, takes(i + 1), cut), key;
      }
      var n := Signed(src[pos + 1..pos + 5]) - 4;
      if n < 0 {
        return false, Delivered(w, takes(i + 1), cut), key;
      }
      w := w + src[pos..pos + 5];
      assert w == src[..pos + 5];
      if !takes(i + 1) {
        return false, Part(w, cut), key;
      }
      var kind := src[pos];
      if n > |src| - pos - 5 {
        if !(kind == KEY_DATA && 8 <= n <= MAX_KEY_DATA) {
          w := w + src[pos + 5..];
          assert w == src[..|src|];
        }
        return false, Delivered(w, takes(i + 2), cut), key;
      }
      RestStep(src, key0, pos, key);
      var body := src[pos + 5..pos + 5 + n];
      w := w + body;
      assert w == src[..pos + 5 + n];
      if !takes(i + 2) {
        return false, Part(w, cut), key;
      }
      if kind == KEY_DATA && 8 <= n <= MAX_KEY_DATA {
        key := Some(body);
      }
      pos := pos + 5 + n;
      if kind == READY {
        ok := takes(i + 3);
        sent := Delivered(w, ok, cut);
        return;
      }
      i := i + 3;
    }
    assert false;
  }

  function Part(w: seq<byte>, cut: nat): (p: seq<byte>)
    ensures p <= w
  {
    if cut < |w| then w[..cut] else w
  }

  function Delivered(w: seq<byte>, whole: bool, cut: nat): (p: seq<byte>)
    ensures p <= w && (whole ==> p == w)
  {
    if whole then w else Part(w, cut)
  }
}
