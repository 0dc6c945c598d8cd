/** Branch passwords at rest: keys by id, the stored forms, and moving every row
    under the primary key.  The cipher, nonce and encoding are one sealed text;
    all that is asked of a cipher is that it opens what it sealed. */
module Secrets {
  import opened Wrappers

  const ENC := "enc:"
  const V1 := "enc:v1:"
  const V2 := "enc:v2:"

  datatype Cipher = Cipher(seal: (nat, string) -> string, open: string -> Option<string>)

  ghost predicate Lawful(c: Cipher) {
    forall n: nat, p: string :: c.open(c.seal(n, p)) == Some(p)
  }

  /** A configured key: its length in bytes, its id, the cipher it makes. */
  datatype Key = Key(len: nat, id: string, cipher: Cipher)

  /** Key ids are hexadecimal. */
  predicate WellIdentified(k: Key) { k.id != "" && ':' !in k.id }

  datatype Keys = Keys(primary: Key, previous: seq<Key>, legacy: seq<Key>)

  datatype Box = Box(primaryID: string, byID: map<string, Cipher>, legacy: seq<Cipher>)

  // ------------------------------------------------------------------- the key box

  predicate Usable(k: Key) { k.len == 32 }

  /** No key is configured, or some key has a wrong length. */
  predicate NoKeys(ks: Keys) {
    ks.primary.len == 0 && |ks.previous| == 0 && |ks.legacy| == 0
  }

  predicate Misconfigured(ks: Keys) {
    || (ks.primary.len != 0 && !Usable(ks.primary))
    || (exists i :: 0 <= i < |ks.previous| && ks.previous[i].len != 0 && !Usable(ks.previous[i]))
    || (exists i :: 0 <= i < |ks.legacy| && ks.legacy[i].len != 0 && !Usable(ks.legacy[i]))
  }

  /** The key an id stands for: the primary, else the first previous key with
      it. */
  function KeyFor(ks: seq<Key>, id: string): Option<Cipher> {
    if ks == [] then None else if ks[0].len != 0 && ks[0].id == id then Some(ks[0].cipher) else KeyFor(ks[1..], id)
  }

  function Lookup(byID: map<string, Cipher>, id: string): Option<Cipher> {
    if id in byID then Some(byID[id]) else None
  }

  lemma {:induction false} KeyForSnoc(ks: seq<Key>, k: Key, id: string)
    ensures KeyFor(ks + [k], id) == if KeyFor(ks, id).Some? || k.len == 0 || k.id != id then KeyFor(ks, id)
        else Some(k.cipher)
  {
    if ks == [] {
      assert (ks + [k])[1..] == [];
    } else {
      KeyForSnoc(ks[1..], k, id);
      assert (ks + [k])[1..] == ks[1..] + [k];
    }
  }

  /** The ciphers of the keys given, in order. */
  function Ciphers(ks: seq<Key>): seq<Cipher> {
    if ks == [] then [] else Ciphers(ks[..|ks| - 1]) + if ks[|ks| - 1].len == 0 then [] else [ks[|ks| - 1].cipher]
  }

  datatype Built = Misfit | Off | On(box: Box)

  /** newSecretBox. */
  method NewSecretBox(ks: Keys) returns (r: Built)
    ensures r.Misfit? <==> !NoKeys(ks) && Misconfigured(ks)
    ensures r.Off? <==> NoKeys(ks)
    ensures r.On? ==> forall id :: Lookup(r.box.byID, id) == KeyFor([ks.primary] + ks.previous, id)
    ensures r.On? ==> r.box.primaryID == if ks.primary.len > 0 then ks.primary.id else ""
    ensures r.On? ==> r.box.legacy == Ciphers(ks.legacy)
  {
    if ks.primary.len == 0 && |ks.previous| == 0 && |ks.legacy| == 0 {
      return Off;
    }
    var id0 := "";
    var byID: map<string, Cipher> := map[];
    var legacy: seq<Cipher> := [];
    if ks.primary.len > 0 {
      if ks.primary.len != 32 {
        return Misfit;
      }
      id0 := ks.primary.id;
      byID := byID[id0 := ks.primary.cipher];
    }
    assert [ks.primary] + ks.previous[..0] == [ks.primary];
    for i := 0 to |ks.previous|
      invariant forall k :: 0 <= k < i ==> ks.previous[k].len == 0 || Usable(ks.previous[k])
      invariant forall id :: Lookup(byID, id) == KeyFor([ks.primary] + ks.previous[..i], id)
    {
      var key := ks.previous[i];
      forall id {
        KeyForSnoc([ks.primary] + ks.previous[..i], key, id);
      }
      assert [ks.primary] + ks.previous[..i + 1] == [ks.primary] + ks.previous[..i] + [key];
      if key.len == 0 {
        continue;
      }
      if key.len != 32 {
        return Misfit;
      }
      if key.id !in byID {
        byID := byID[key.id := key.cipher];
      }
    }
    assert ks.previous[..|ks.previous|] == ks.previous;
    for i := 0 to |ks.legacy|
      invariant forall k :: 0 <= k < i ==> ks.legacy[k].len == 0 || Usable(ks.legacy[k])
      invariant legacy == Ciphers(ks.legacy[..i])
    {
      var key := ks.legacy[i];
      assert ks.legacy[..i + 1][..i] == ks.legacy[..i];
      if key.len == 0 {
        continue;
      }
      if key.len != 32 {
        return Misfit;
      }
      legacy := legacy + [key.cipher];
    }
    assert ks.legacy[..|ks.legacy|] == ks.legacy;
    return On(Box(id0, byID, legacy));
  }

  /** A box that encrypts, under a key that opens what it seals. */
  ghost predicate Encrypts(b: Box) {
    b.primaryID != "" && ':' !in b.primaryID && b.primaryID in b.byID && Lawful(b.byID[b.primaryID])
  }

  lemma BoxEncrypts(ks: Keys, b: Box)
    requires (forall id :: Lookup(b.byID, id) == KeyFor([ks.primary] + ks.previous, id)) && b.primaryID == ks.primary.id
    requires ks.primary.len > 0 && WellIdentified(ks.primary) && Lawful(ks.primary.cipher)
    ensures Encrypts(b)
  {
    assert Lookup(b.byID, ks.primary.id) == Some(ks.primary.cipher);
  }

  // ------------------------------------------------------------- encrypt and decrypt

  /** encrypt; None is a failure of the random source. */
  function Encrypt(box: Option<Box>, plain: string, nonce: Option<nat>): Option<string>
    requires box.Some? && box.value.primaryID != "" ==> box.value.primaryID in box.value.byID
  {
    if box.None? || box.value.primaryID == "" || plain == "" then Some(plain)
    else if nonce.None? then None
    else Some(V2 + box.value.primaryID + ":" + box.value.byID[box.value.primaryID].seal(nonce.value, plain))
  }

  /** The position of the first colon. */
  function Colon(s: string): (i: nat)
    ensures i <= |s| && (forall k :: 0 <= k < i ==> s[k] != ':') && (i < |s| ==> s[i] == ':')
  {
    if s == "" || s[0] == ':' then 0 else 1 + Colon(s[1..])
  }

  function FirstOpen(cs: seq<Cipher>, body: string): Option<string> {
    if cs == [] then None else if cs[0].open(body).Some? then cs[0].open(body) else FirstOpen(cs[1..], body)
  }

  /** decrypt; None is a password no configured key opens. */
  function Decrypt(box: Option<Box>, stored: string): Option<string> {
    if !(ENC <= stored) then Some(stored)
    else if V2 <= stored then
      var s := stored[|V2|..];
      var i := Colon(s);
      if i == |s| || box.None? || s[..i] !in box.value.byID then None else box.value.byID[s[..i]].open(s[i + 1..])
    else if V1 <= stored && box.Some? then FirstOpen(box.value.legacy, stored[|V1|..])
    else None
  }

  /** decrypt's scan of the legacy keys. */
  method ScanLegacy(cs: seq<Cipher>, body: string) returns (r: Option<string>)
    ensures r == FirstOpen(cs, body)
  {
    assert cs[0..] == cs;
    for i := 0 to |cs|
      invariant FirstOpen(cs, body) == FirstOpen(cs[i..], body)
    {
      var plain := cs[i].open(body);
      if plain.Some? {
        return plain;
      }
    }
    return None;
  }

  lemma ColonOf(a: string, b: string)
    requires ':' !in a
    ensures Colon(a + ":" + b) == |a|
  {
    var s := a + ":" + b;
    assert s[|a|] == ':';
    assert forall k :: 0 <= k < |a| ==> s[k] == a[k] && a[k] != ':';
  }

  /** A value sealed under the primary key reads as such and opens to what was
      sealed. */
  lemma Sealed(b: Box, plain: string, n: nat)
    requires Encrypts(b) && plain != ""
    ensures var e := Encrypt(Some(b), plain, Some(n));
      e.Some? && e.value != "" && Decrypt(Some(b), e.value) == Some(plain) && IsCurrent(Some(b), e.value)
  {
    var body := b.byID[b.primaryID].seal(n, plain);
    var e := V2 + b.primaryID + ":" + body;
    assert e == V2 + (b.primaryID + ":" + body) && e[|V2|..] == b.primaryID + ":" + body;
    assert e == ENC + ("v2:" + (b.primaryID + ":" + body));
    ColonOf(b.primaryID, body);
    var s := b.primaryID + ":" + body;
    assert s[..|b.primaryID|] == b.primaryID && s[|b.primaryID| + 1..] == body;
    assert V2 + b.primaryID + ":" <= e;
  }

  /** decrypt undoes encrypt: always under a primary key, and without any key
      exactly for passwords that do not look encrypted. */
  lemma DecryptUndoesEncrypt(b: Box, plain: string, n: nat)
    requires Encrypts(b)
    ensures Encrypt(Some(b), plain, Some(n)).Some?
    ensures Decrypt(Some(b), Encrypt(Some(b), plain, Some(n)).value) == Some(plain)
  {
    if plain != "" {
      Sealed(b, plain, n);
    }
  }

  /** What a cipher opens is no longer than the sealed text. */
  ghost predicate Shortens(c: Cipher) {
    forall body: string :: c.open(body).Some? ==> |c.open(body).value| <= |body|
  }

  lemma {:induction false} FirstOpenShortens(cs: seq<Cipher>, body: string)
    requires forall c :: c in cs ==> Shortens(c)
    ensures FirstOpen(cs, body).Some? ==> |FirstOpen(cs, body).value| <= |body|
  {
    if cs != [] && cs[0].open(body).None? {
      FirstOpenShortens(cs[1..], body);
    } else if cs != [] {
      assert Shortens(cs[0]);
    }
  }

  /** Without a primary key, whether there are other keys or none, a password
      survives exactly if it does not begin with the marker of encrypted ones. */
  lemma WithoutPrimaryExactly(box: Option<Box>, plain: string, nonce: Option<nat>)
    requires box.Some? ==>
        box.value.primaryID == "" && (forall id :: id in box.value.byID ==> Shortens(box.value.byID[id]))
    requires box.Some? ==> forall c :: c in box.value.legacy ==> Shortens(c)
    ensures Encrypt(box, plain, nonce) == Some(plain)
    ensures Decrypt(box, plain) == Some(plain) <==> !(ENC <= plain)
  {
    if ENC <= plain && V2 <= plain {
      var s := plain[|V2|..];
      var i := Colon(s);
      if i < |s| && box.Some? && s[..i] in box.value.byID {
        assert Shortens(box.value.byID[s[..i]]);
        assert box.value.byID[s[..i]].open(s[i + 1..]).Some? ==>
            |box.value.byID[s[..i]].open(s[i + 1..]).value| <= |s[i + 1..]|;
      }
    } else if ENC <= plain && V1 <= plain && box.Some? {
      FirstOpenShortens(box.value.legacy, plain[|V1|..]);
    }
  }

  /** A password that is lost when no key is set. */
  lemma LooksEncrypted()
    ensures Encrypt(None, "enc:hunter2", None) == Some("enc:hunter2") && Decrypt(None, "enc:hunter2") == None
  {
    assert "enc:hunter2" == ENC + "hunter2";
  }

  /** isCurrent. */
  predicate IsCurrent(box: Option<Box>, stored: string) {
    stored == "" || box.None? || box.value.primaryID == "" || V2 + box.value.primaryID + ":" <= stored
  }

  // --------------------------------------------------------------------- key rotation

  datatype Row = Row(name: string, live: bool, stored: string)

  datatype Report = Report(reencrypted: nat, unavailable: seq<string>)

  /** A live row that is not under the primary key yet. */
  predicate Candidate(b: Box, r: Row) { r.live && r.stored != "" && !IsCurrent(Some(b), r.stored) }

  /** One that can be moved there. */
  predicate Stale(b: Box, r: Row) { Candidate(b, r) && Decrypt(Some(b), r.stored).Some? }

  function CountStale(b: Box, rows: seq<Row>): nat {
    if rows == [] then 0 else CountStale(b, rows[..|rows| - 1]) + if Stale(b, rows[|rows| - 1]) then 1 else 0
  }

  function Unopened(b: Box, rows: seq<Row>): seq<string> {
    if rows == [] then []
    else
      var r := rows[|rows| - 1];
      Unopened(b, rows[..|rows| - 1]) + if Candidate(b, r) && !Stale(b, r) then [r.name] else []
  }

  /** What re-encryption makes of a row: the same password, in its final form;
      a row that is not stale is left alone. */
  predicate Moved(b: Box, r: Row, r': Row) {
    && r'.name == r.name && r'.live == r.live
    && (if Stale(b, r) then Decrypt(Some(b), r'.stored) == Decrypt(Some(b), r.stored) && IsCurrent(Some(b), r'.stored)
        else r' == r)
  }

  /** A moved row is never stale again. */
  lemma MovedSettles(b: Box, r: Row, r': Row)
    requires Moved(b, r, r')
    ensures !Stale(b, r') && Decrypt(Some(b), r'.stored) == Decrypt(Some(b), r.stored)
    ensures r.live && r.stored != "" ==> IsCurrent(Some(b), r'.stored) || (r' == r && Decrypt(Some(b), r.stored).None?)
  {
  }

  lemma {:induction false} NothingStale(b: Box, rows: seq<Row>)
    requires forall r :: r in rows ==> !Stale(b, r)
    ensures CountStale(b, rows) == 0
  {
    if rows != [] {
      NothingStale(b, rows[..|rows| - 1]);
    }
  }

  /** A second pass over rows a first pass has moved finds nothing to do. */
  lemma SecondRunIdle(b: Box, rows: seq<Row>, once: seq<Row>, twice: seq<Row>)
    requires |once| == |rows| && forall i :: 0 <= i < |rows| ==> Moved(b, rows[i], once[i])
    requires |twice| == |once| && forall i :: 0 <= i < |once| ==> Moved(b, once[i], twice[i])
    ensures CountStale(b, once) == 0 && twice == once
  {
    forall i | 0 <= i < |once| ensures !Stale(b, once[i]) && twice[i] == once[i] {
      MovedSettles(b, rows[i], once[i]);
    }
    NothingStale(b, once);
  }

  class Registry {
    var rows: seq<Row>

    constructor (rows: seq<Row>)
      ensures this.rows == rows
    {
      this.rows := rows;
    }

    /** The candidates, in row order. */
    method Collect(b: Box) returns (todo: seq<nat>)
      ensures forall k :: 0 <= k < |todo| ==> todo[k] < |rows| && Candidate(b, rows[todo[k]])
      ensures forall i :: 0 <= i < |rows| && Candidate(b, rows[i]) ==> i in todo
      ensures forall j, k :: 0 <= j < k < |todo| ==> todo[j] < todo[k]
    {
      todo := [];
      for i := 0 to |rows|
        invariant forall k :: 0 <= k < |todo| ==> todo[k] < i && Candidate(b, rows[todo[k]])
        invariant forall k :: 0 <= k < i && Candidate(b, rows[k]) ==> k in todo
        invariant forall j, k :: 0 <= j < k < |todo| ==> todo[j] < todo[k]
      {
        if rows[i].live && rows[i].stored != "" && !IsCurrent(Some(b), rows[i].stored) {
          todo := todo + [i];
        }
      }
    }

    /** ReencryptSecrets, in one transaction: nonce(i) feeds the i-th row's
        encryption, and a failing random source rolls everything back. */
    method ReencryptSecrets(box: Option<Box>, nonce: nat -> Option<nat>) returns (ok: bool, rep: Report)
      requires box.Some? && box.value.primaryID != "" ==> Encrypts(box.value)
      modifies this
      ensures box.None? || box.value.primaryID == "" ==> ok && rows == old(rows) && rep == Report(0, [])
      ensures !ok ==> rows == old(rows)
      ensures ok && box.Some? && box.value.primaryID != "" ==>
        && |rows| == |old(rows)| && (forall i :: 0 <= i < |rows| ==> Moved(box.value, old(rows)[i], rows[i]))
        && rep == Report(CountStale(box.value, old(rows)), Unopened(box.value, old(rows)))
      ensures (forall i :: nonce(i).Some?) ==> ok
    {
      hide Decrypt; hide Encrypt; hide IsCurrent; hide Moved; hide CountStale; hide Unopened; hide Stale;
      hide Candidate; hide Lawful;
      rep := Report(0, []);
      if box.None? || box.value.primaryID == "" {
        return true, rep;
      }
      var b := box.value;
      var todo := Collect(b);
      var tx := rows;
      var k := 0;
      ghost var done := 0;
      CountsNone(b, rows);
      while k < |todo|
        invariant 0 <= k <= |todo| && done <= |rows| && |tx| == |rows| && rows == old(rows)
        invariant forall j :: 0 <= j < |todo| ==> (j < k <==> todo[j] < done)
        invariant forall i :: 0 <= i < done ==> Moved(b, rows[i], tx[i])
        invariant forall i :: done <= i < |rows| ==> tx[i] == rows[i]
        invariant forall i :: done <= i < |rows| && Candidate(b, rows[i]) ==> i in todo[k..]
        invariant rep == Report(CountStale(b, rows[..done]), Unopened(b, rows[..done]))
        decreases |todo| - k
      {
        var i := todo[k];
        Skipped(b, rows, done, i);
        CountsOne(b, rows, i);
        forall j | done <= j <= i ensures Candidate(b, rows[j]) || Moved(b, rows[j], tx[j]) {
          StaleOrNot(b, rows[j]);
        }
        StaleOrNot(b, rows[i]);
        var r := rows[i];
        done := i + 1;
        var plain := Decrypt(Some(b), r.stored);
        if plain.None? {
          rep := rep.(unavailable := rep.unavailable + [r.name]);
        } else {
          var e := Encrypt(box, plain.value, nonce(i));
          if e.None? {
            NonceFailed(box, plain.value, nonce(i));
            return false, rep;
          }
          Rewritten(b, r, plain.value, nonce(i));
          if tx[i].stored == r.stored {
            tx := tx[i := r.(stored := e.value)];
            rep := rep.(reencrypted := rep.reencrypted + 1);
          }
        }
        k := k + 1;
      }
      Skipped(b, rows, done, |rows|);
      assert rows[..|rows|] == rows;
      forall i | done <= i < |rows| ensures Moved(b, rows[i], tx[i]) {
        StaleOrNot(b, rows[i]);
      }
      rows := tx;
      return true, rep;
    }
  }

  /** A row that is no candidate, or cannot be opened, is moved by being left. */
  lemma StaleOrNot(b: Box, r: Row)
    ensures Stale(b, r) <==> Candidate(b, r) && Decrypt(Some(b), r.stored).Some?
    ensures !Stale(b, r) ==> Moved(b, r, r)
  {
  }

  lemma NonceFailed(box: Option<Box>, plain: string, nonce: Option<nat>)
    requires box.Some? && box.value.primaryID in box.value.byID && Encrypt(box, plain, nonce).None?
    ensures nonce.None?
  {
  }

  lemma CountsNone(b: Box, rows: seq<Row>)
    ensures CountStale(b, rows[..0]) == 0 && Unopened(b, rows[..0]) == []
  {
  }

  lemma CountsOne(b: Box, rows: seq<Row>, i: nat)
    requires i < |rows| && Candidate(b, rows[i])
    ensures CountStale(b, rows[..i + 1]) == CountStale(b, rows[..i]) + if Stale(b, rows[i]) then 1 else 0
    ensures Unopened(b, rows[..i + 1]) == Unopened(b, rows[..i]) + if Stale(b, rows[i]) then [] else [rows[i].name]
  {
    assert rows[..i + 1][..i] == rows[..i];
  }

  lemma Rewritten(b: Box, r: Row, plain: string, nonce: Option<nat>)
    requires Encrypts(b) && Stale(b, r) && Decrypt(Some(b), r.stored) == Some(plain)
    requires Encrypt(Some(b), plain, nonce).Some?
    ensures Moved(b, r, r.(stored := Encrypt(Some(b), plain, nonce).value))
  {
    if plain != "" {
      Sealed(b, plain, nonce.value);
    }
  }

  /** Rows between two candidates count for nothing. */
  lemma {:induction false} Skipped(b: Box, rows: seq<Row>, lo: nat, hi: nat)
    requires lo <= hi <= |rows| && forall i :: lo <= i < hi ==> !Candidate(b, rows[i])
    ensures CountStale(b, rows[..hi]) == CountStale(b, rows[..lo]) && Unopened(b, rows[..hi]) == Unopened(b, rows[..lo])
    decreases hi
  {
    if lo < hi {
      Skipped(b, rows, lo, hi - 1);
      assert rows[..hi][..hi - 1] == rows[..hi - 1];
    }
  }
}
