/** The keys of the database, and batches whose puts arrive in any order. */
module KeyLayout {
  import opened Types
  import opened HexPrefix
  import opened Stores

  const UINT64: nat := 0x1_0000_0000_0000_0000

  // ---- numbers ----

  function BigEndian(n: nat, width: nat): Bytes {
    if width == 0 then [] else BigEndian(n / 256, width - 1) + [n % 256]
  }

  function FromBigEndian(bs: Bytes): nat {
    if bs == [] then 0 else FromBigEndian(bs[..|bs| - 1]) * 256 + bs[|bs| - 1]
  }

  function Power256(k: nat): nat {
    if k == 0 then 1 else 256 * Power256(k - 1)
  }

  lemma {:induction false} BigEndianRoundTrip(n: nat, width: nat)
    requires n < Power256(width)
    ensures |BigEndian(n, width)| == width && FromBigEndian(BigEndian(n, width)) == n
  {
    if width > 0 {
      BigEndianRoundTrip(n / 256, width - 1);
      var bs := BigEndian(n, width);
      assert bs[..|bs| - 1] == BigEndian(n / 256, width - 1);
    }
  }

  /** The eight bytes of a number, most significant first. */
  method EncodeUint64(n: nat) returns (bs: Bytes)
    requires n < UINT64
    ensures bs == BigEndian(n, 8) && |bs| == 8
    ensures n == Four(bs[..4]) * 0x1_0000_0000 + Four(bs[4..])
  {
    var b := new Byte[8];
    var rest, i := n, 8;
    while i > 0
      invariant 0 <= i <= 8
      invariant BigEndian(n, 8) == BigEndian(rest, i) + b[i..]
    {
      assert BigEndian(rest, i) == BigEndian(rest / 256, i - 1) + [rest % 256];
      ghost var tail := b[i..];
      b[i - 1] := rest % 256;
      assert b[i - 1..] == [rest % 256] + tail;
      rest, i := rest / 256, i - 1;
    }
    bs := b[..];
    Power8();
    EightBytes(n, bs);
  }

  /** Four bytes as a number, most significant first. */
  function Four(bs: Bytes): int
    requires |bs| == 4
  {
    var a: int, b: int, c: int, d: int := bs[0], bs[1], bs[2], bs[3];
    a * 0x100_0000 + b * 0x1_0000 + c * 0x100 + d
  }

  lemma EightBytes(n: nat, bs: Bytes)
    requires bs == BigEndian(n, 8) && n < Power256(8)
    ensures |bs| == 8 && n == Four(bs[..4]) * 0x1_0000_0000 + Four(bs[4..])
  {
    BigEndianRoundTrip(n, 8);
    var a, b, c, d := bs[..7], bs[..6], bs[..5], bs[..4];
    assert a[..6] == b && b[..5] == c && c[..4] == d;
    assert FromBigEndian(bs) == FromBigEndian(a) * 256 + bs[7];
    assert FromBigEndian(a) == FromBigEndian(b) * 256 + bs[6];
    assert FromBigEndian(b) == FromBigEndian(c) * 256 + bs[5];
    assert FromBigEndian(c) == FromBigEndian(d) * 256 + bs[4];
    FourBytes(d);
  }

  lemma FourBytes(bs: Bytes)
    requires |bs| == 4
    ensures FromBigEndian(bs) == Four(bs)
  {
    var a, b, c := bs[..3], bs[..2], bs[..1];
    assert a[..2] == b && b[..1] == c && c[..0] == [];
    assert FromBigEndian(bs) == FromBigEndian(a) * 256 + bs[3];
    assert FromBigEndian(a) == FromBigEndian(b) * 256 + bs[2];
    assert FromBigEndian(b) == FromBigEndian(c) * 256 + bs[1];
    assert FromBigEndian(c) == FromBigEndian([]) * 256 + bs[0];
  }

  // ---- keys ----

  datatype Key =
    | Genesis
    | LatestSequencer
    | StateRoot
    | Receipts(height: nat)
    | ConfirmTime(height: nat)
    | SequencerAt(height: nat)
    | TxIndex(height: nat)
    | Transaction(hash: Bytes)
    | TxHashFlow(addr: Bytes, nonce: nat)
    | LatestNonce(addr: Bytes)
    | AddressBalance(addr: Bytes)
    | TrieNode(hash: Bytes)
    | Preimage(hash: Bytes)

  predicate IsKey(k: Key) {
    match k
    case Receipts(n) => n < UINT64
    case ConfirmTime(n) => n < UINT64
    case SequencerAt(n) => n < UINT64
    case TxIndex(n) => n < UINT64
    case Transaction(h) => |h| == 32
    case TxHashFlow(a, n) => |a| == 20 && n < UINT64
    case LatestNonce(a) => |a| == 20
    case AddressBalance(a) => |a| == 20
    case TrieNode(h) => |h| == 32
    case Preimage(h) => |h| == 32
    case _ => true
  }

  function Ascii(s: string): Bytes {
    seq(|s|, i requires 0 <= i < |s| => s[i] as int % 256)
  }

  function Encode(k: Key): Bytes {
    match k
    case Genesis => Ascii("genesis")
    case LatestSequencer => Ascii("latestseq")
    case StateRoot => Ascii("stateroot")
    case Receipts(n) => Ascii("rp") + BigEndian(n, 8)
    case ConfirmTime(n) => Ascii("cf") + BigEndian(n, 8)
    case SequencerAt(n) => Ascii("sh") + BigEndian(n, 8)
    case TxIndex(n) => Ascii("ti") + BigEndian(n, 8)
    case Transaction(h) => Ascii("tx") + h
    case TxHashFlow(a, n) => Ascii("fl") + a + BigEndian(n, 8)
    case LatestNonce(a) => Ascii("aln") + a
    case AddressBalance(a) => Ascii("ba") + a
    case TrieNode(h) => h
    case Preimage(h) => Ascii("secure-key-") + h
  }

  /** Reads a key back: the length tells most families apart, the first two bytes the rest. */
  function Decode(bs: Bytes): Option<Key> {
    match |bs|
    case 7 => Some(Genesis)
    case 9 => if bs[0] == 'l' as int then Some(LatestSequencer) else Some(StateRoot)
    case 10 =>
      var n := FromBigEndian(bs[2..]);
      if bs[0] == 'r' as int then Some(Receipts(n))
      else if bs[0] == 'c' as int then Some(ConfirmTime(n))
      else if bs[0] == 's' as int then Some(SequencerAt(n))
      else Some(TxIndex(n))
    case 22 => Some(AddressBalance(bs[2..]))
    case 23 => Some(LatestNonce(bs[3..]))
    case 30 => Some(TxHashFlow(bs[2..22], FromBigEndian(bs[22..])))
    case 32 => Some(TrieNode(bs))
    case 34 => Some(Transaction(bs[2..]))
    case 43 => Some(Preimage(bs[11..]))
    case _ => None
  }

  lemma TwoLetters(a: char, b: char)
    ensures Ascii([a, b]) == [a as int % 256, b as int % 256]
  {
  }

  lemma ThreeLetters(a: char, b: char, c: char)
    ensures Ascii([a, b, c]) == [a as int % 256, b as int % 256, c as int % 256]
  {
  }

  lemma {:induction false} AsciiConcat(s: string, t: string)
    ensures Ascii(s + t) == Ascii(s) + Ascii(t)
  {
  }

  /** The keys of which there is one each. */
  lemma GenesisKey()
    ensures Encode(Genesis) == [103, 101] + [110, 101] + [115, 105, 115]
  {
    hide Ascii;
    TwoLetters('g', 'e');
    TwoLetters('n', 'e');
    ThreeLetters('s', 'i', 's');
    AsciiConcat("ge", "ne");
    AsciiConcat("ge" + "ne", "sis");
    assert "genesis" == "ge" + "ne" + "sis";
  }

  lemma LatestSequencerKey()
    ensures Encode(LatestSequencer) == [108, 97, 116] + [101, 115, 116] + [115, 101, 113]
  {
    hide Ascii;
    Letters9('l', 'a', 't', 'e', 's', 't', 's', 'e', 'q');
    assert "latestseq" == ['l', 'a', 't', 'e', 's', 't', 's', 'e', 'q'];
  }

  lemma StateRootKey()
    ensures Encode(StateRoot) == [115, 116, 97] + [116, 101, 114] + [111, 111, 116]
  {
    hide Ascii;
    Letters9('s', 't', 'a', 't', 'e', 'r', 'o', 'o', 't');
    assert "stateroot" == ['s', 't', 'a', 't', 'e', 'r', 'o', 'o', 't'];
  }

  lemma Letters9(a: char, b: char, c: char, d: char, e: char, f: char, g: char, h: char, i: char)
    ensures Ascii([a, b, c, d, e, f, g, h, i]) == Ascii([a, b, c]) + Ascii([d, e, f]) + Ascii([g, h, i])
    ensures Ascii([a, b, c]) == [a as int % 256, b as int % 256, c as int % 256]
    ensures Ascii([d, e, f]) == [d as int % 256, e as int % 256, f as int % 256]
    ensures Ascii([g, h, i]) == [g as int % 256, h as int % 256, i as int % 256]
  {
    hide Ascii;
    ThreeLetters(a, b, c);
    ThreeLetters(d, e, f);
    ThreeLetters(g, h, i);
    AsciiConcat([a, b, c], [d, e, f]);
    AsciiConcat([a, b, c, d, e, f], [g, h, i]);
    assert [a, b, c] + [d, e, f] == [a, b, c, d, e, f];
    assert [a, b, c, d, e, f] + [g, h, i] == [a, b, c, d, e, f, g, h, i];
  }

  /** The prefixes of the families that are numbered by height. */
  lemma HeightPrefixes(n: nat)
    ensures Encode(Receipts(n)) == [114, 112] + BigEndian(n, 8)
    ensures Encode(ConfirmTime(n)) == [99, 102] + BigEndian(n, 8)
    ensures Encode(SequencerAt(n)) == [115, 104] + BigEndian(n, 8)
    ensures Encode(TxIndex(n)) == [116, 105] + BigEndian(n, 8)
  {
    hide BigEndian, Ascii;
    TwoLetters('r', 'p');
    TwoLetters('c', 'f');
    TwoLetters('s', 'h');
    TwoLetters('t', 'i');
  }

  /** The prefixes of the families that are named by a hash or an address. */
  lemma HashPrefixes(h: Bytes, n: nat)
    ensures Encode(Transaction(h)) == [116, 120] + h
    ensures Encode(TxHashFlow(h, n)) == [102, 108] + h + BigEndian(n, 8)
    ensures Encode(LatestNonce(h)) == [97, 108, 110] + h
    ensures Encode(AddressBalance(h)) == [98, 97] + h
    ensures Encode(TrieNode(h)) == h
  {
    hide BigEndian, Ascii;
    TwoLetters('t', 'x');
    TwoLetters('f', 'l');
    ThreeLetters('a', 'l', 'n');
    TwoLetters('b', 'a');
  }

  lemma PreimagePrefix(h: Bytes)
    ensures Encode(Preimage(h)) == [115, 101, 99] + [117, 114, 101] + [45, 107, 101] + [121, 45] + h
  {
    hide Ascii;
    Letters9('s', 'e', 'c', 'u', 'r', 'e', '-', 'k', 'e');
    assert "secure-ke" == ['s', 'e', 'c', 'u', 'r', 'e', '-', 'k', 'e'];
    TwoLetters('y', '-');
    AsciiConcat("secure-ke", "y-");
    assert "secure-key-" == "secure-ke" + "y-";
  }

  lemma Power8()
    ensures Power256(8) == UINT64
  {
    assert Power256(2) == 0x1_0000 && Power256(4) == 0x1_0000_0000;
    assert Power256(6) == 0x1_0000_0000_0000;
  }

  /** The height that a key of ten bytes holds. */
  lemma NumberedKey(prefix: Bytes, n: nat)
    requires |prefix| == 2 && n < UINT64
    ensures |prefix + BigEndian(n, 8)| == 10 && FromBigEndian((prefix + BigEndian(n, 8))[2..]) == n
  {
    Power8();
    BigEndianRoundTrip(n, 8);
    assert (prefix + BigEndian(n, 8))[2..] == BigEndian(n, 8);
  }

  lemma FlowKey(a: Bytes, n: nat)
    requires |a| == 20 && n < UINT64
    ensures var bs := Ascii("fl") + a + BigEndian(n, 8);
      |bs| == 30 && bs[2..22] == a && FromBigEndian(bs[22..]) == n
  {
    Power8();
    BigEndianRoundTrip(n, 8);
    assert (Ascii("fl") + a + BigEndian(n, 8))[22..] == BigEndian(n, 8);
  }

  lemma NumberRoundTrip(k: Key)
    requires IsKey(k) && (k.Receipts? || k.ConfirmTime? || k.SequencerAt? || k.TxIndex?)
    ensures Decode(Encode(k)) == Some(k)
  {
    hide BigEndian, FromBigEndian;
    var prefix :=
      match k
      case Receipts(_) => Ascii("rp")
      case ConfirmTime(_) => Ascii("cf")
      case SequencerAt(_) => Ascii("sh")
      case _ => Ascii("ti");
    NumberedKey(prefix, k.height);
    assert Encode(k) == prefix + BigEndian(k.height, 8) && Encode(k)[0] == prefix[0];
  }

  lemma KeyRoundTrip(k: Key)
    requires IsKey(k)
    ensures Decode(Encode(k)) == Some(k)
  {
    hide BigEndian, FromBigEndian;
    if k.Receipts? || k.ConfirmTime? || k.SequencerAt? || k.TxIndex? {
      NumberRoundTrip(k);
    } else if k.TxHashFlow? {
      FlowKey(k.addr, k.nonce);
    } else if k.Transaction? || k.Preimage? {
      assert Encode(k)[if k.Transaction? then 2 else 11..] == k.hash;
    } else if k.LatestNonce? || k.AddressBalance? {
      assert Encode(k)[if k.LatestNonce? then 3 else 2..] == k.addr;
    }
  }

  /** Different keys, of one family or of two, are different byte strings. */
  lemma KeysDisjoint(a: Key, b: Key)
    requires IsKey(a) && IsKey(b)
    ensures Encode(a) == Encode(b) <==> a == b
  {
    KeyRoundTrip(a);
    KeyRoundTrip(b);
  }

  // ---- what a push puts ----

  /** A transaction as it is stored: `data` is its serialised form. */
  datatype Stored = Stored(hash: Bytes, sender: Bytes, nonce: nat, archive: bool, data: Bytes)

  type Puts = seq<(Key, Bytes)>

  predicate IsStored(tx: Stored) {
    |tx.hash| == 32 && |tx.sender| == 20 && tx.nonce < UINT64
  }

  function PutsOf(tx: Stored): Puts {
    (if tx.archive then [] else [(TxHashFlow(tx.sender, tx.nonce), tx.hash)]) + [(Transaction(tx.hash), tx.data)]
  }

  function PutsOfAll(txs: seq<Stored>): Puts {
    if txs == [] then [] else PutsOfAll(txs[..|txs| - 1]) + PutsOf(txs[|txs| - 1])
  }

  /** The puts of a push: its transactions and the sequencer, then receipts, index and sequencer once per height. */
  function PushPuts(txs: seq<Stored>, s: Stored, height: nat, receipts: Bytes, index: Bytes, sequencer: Bytes): Puts {
    PutsOfAll(txs + [s]) + [(Receipts(height), receipts)]
    + (if txs == [] then [] else [(TxIndex(height), index)])
    + [(SequencerAt(height), sequencer), (LatestSequencer, sequencer)]
  }

  /** Transactions differ in hash, and those that carry a nonce differ in sender or nonce. */
  ghost predicate Apart(txs: seq<Stored>) {
    && (forall a, b :: a in txs && b in txs && a.hash == b.hash ==> a == b)
    && (forall a, b ::
      a in txs && b in txs && !a.archive && !b.archive && a.sender == b.sender && a.nonce == b.nonce ==> a == b)
  }

  lemma {:induction false} PutFrom(txs: seq<Stored>, w: (Key, Bytes)) returns (tx: Stored)
    requires w in PutsOfAll(txs)
    ensures tx in txs && w in PutsOf(tx)
  {
    var front, last := txs[..|txs| - 1], txs[|txs| - 1];
    if w in PutsOf(last) {
      tx := last;
    } else {
      tx := PutFrom(front, w);
    }
  }

  /** One key, one value: puts of transactions that are apart do not collide. */
  lemma TxPutsAgree(txs: seq<Stored>, v: (Key, Bytes), w: (Key, Bytes))
    requires Apart(txs) && v in PutsOfAll(txs) && w in PutsOfAll(txs) && v.0 == w.0
    ensures v.1 == w.1 && (v.0.Transaction? || v.0.TxHashFlow?)
  {
    var a := PutFrom(txs, v);
    var b := PutFrom(txs, w);
    assert a == b;
  }

  lemma TxPutKeys(txs: seq<Stored>, w: (Key, Bytes))
    requires (forall tx :: tx in txs ==> IsStored(tx)) && w in PutsOfAll(txs)
    ensures IsKey(w.0) && (w.0.Transaction? || w.0.TxHashFlow?)
  {
    var tx := PutFrom(txs, w);
  }

  lemma PushPutsConsistent(txs: seq<Stored>, s: Stored, height: nat, receipts: Bytes, index: Bytes, sequencer: Bytes)
    requires (forall tx :: tx in txs + [s] ==> IsStored(tx)) && Apart(txs + [s]) && height < UINT64
    ensures var ps := PushPuts(txs, s, height, receipts, index, sequencer);
      Consistent(ps) && forall w :: w in ps ==> IsKey(w.0)
  {
    var all, ps := PutsOfAll(txs + [s]), PushPuts(txs, s, height, receipts, index, sequencer);
    forall w | w in ps ensures IsKey(w.0) && (w in all || !(w.0.Transaction? || w.0.TxHashFlow?)) {
      if w in all {
        TxPutKeys(txs + [s], w);
      }
    }
    forall i, j | 0 <= i < |ps| && 0 <= j < |ps| && ps[i].0 == ps[j].0 ensures ps[i].1 == ps[j].1 {
      assert ps[i] in ps && ps[j] in ps;
      if ps[i].0.Transaction? || ps[i].0.TxHashFlow? {
        TxPutsAgree(txs + [s], ps[i], ps[j]);
      } else {
        OtherPutsAgree(txs, s, height, receipts, index, sequencer, ps[i], ps[j]);
      }
    }
  }

  lemma OtherPutsAgree(txs: seq<Stored>, s: Stored, height: nat, receipts: Bytes, index: Bytes, sequencer: Bytes,
      v: (Key, Bytes), w: (Key, Bytes))
    requires var ps := PushPuts(txs, s, height, receipts, index, sequencer); v in ps && w in ps && v.0 == w.0
    requires !(v.0.Transaction? || v.0.TxHashFlow?)
    ensures v.1 == w.1
  {
    hide PutsOfAll;
    NotFromTxs(txs + [s], v);
    NotFromTxs(txs + [s], w);
  }

  lemma NotFromTxs(txs: seq<Stored>, w: (Key, Bytes))
    requires !(w.0.Transaction? || w.0.TxHashFlow?)
    ensures w !in PutsOfAll(txs)
  {
    if w in PutsOfAll(txs) {
      var tx := PutFrom(txs, w);
    }
  }

  // ---- puts as bytes ----

  function Encoded(ps: Puts): seq<(Bytes, Bytes)> {
    seq(|ps|, i requires 0 <= i < |ps| => (Encode(ps[i].0), ps[i].1))
  }

  lemma EncodedConsistent(ps: Puts)
    requires Consistent(ps) && forall w :: w in ps ==> IsKey(w.0)
    ensures Consistent(Encoded(ps))
  {
    var es := Encoded(ps);
    forall i, j | 0 <= i < |es| && 0 <= j < |es| && es[i].0 == es[j].0 ensures es[i].1 == es[j].1 {
      assert ps[i] in ps && ps[j] in ps;
      KeysDisjoint(ps[i].0, ps[j].0);
    }
  }

  /** Whatever the interleaving of the puts of one push, the database ends up the same. */
  lemma PushAnyOrder(db: map<Bytes, Bytes>, txs: seq<Stored>, s: Stored, height: nat, receipts: Bytes, index: Bytes,
      sequencer: Bytes, ws: seq<(Bytes, Bytes)>)
    requires (forall tx :: tx in txs + [s] ==> IsStored(tx)) && Apart(txs + [s]) && height < UINT64
    requires multiset(ws) == multiset(Encoded(PushPuts(txs, s, height, receipts, index, sequencer)))
    ensures Apply(db, ws) == Apply(db, Encoded(PushPuts(txs, s, height, receipts, index, sequencer)))
  {
    hide PushPuts, Apart, Encoded, Encode;
    var ps := PushPuts(txs, s, height, receipts, index, sequencer);
    PushPutsConsistent(txs, s, height, receipts, index, sequencer);
    EncodedConsistent(ps);
    AnyOrder(db, Encoded(ps), ws);
  }

  /** The database holds `v` under `k`. */
  ghost predicate Held(db: map<Bytes, Bytes>, k: Key, v: Bytes) {
    Encode(k) in db && db[Encode(k)] == v
  }

  /** A put of a push is in the database afterwards. */
  lemma PushHolds(db: map<Bytes, Bytes>, ps: Puts, k: Key, v: Bytes)
    requires Consistent(ps) && (forall w :: w in ps ==> IsKey(w.0)) && (k, v) in ps
    ensures Held(Apply(db, Encoded(ps)), k, v)
  {
    hide Encode;
    EncodedConsistent(ps);
    var i :| 0 <= i < |ps| && ps[i] == (k, v);
    assert Encoded(ps)[i] == (Encode(k), v);
    PutIsHeld(db, Encoded(ps), (Encode(k), v));
  }

  lemma {:induction false} PutsOfEach(txs: seq<Stored>, tx: Stored)
    requires tx in txs
    ensures (Transaction(tx.hash), tx.data) in PutsOfAll(txs)
    ensures !tx.archive ==> (TxHashFlow(tx.sender, tx.nonce), tx.hash) in PutsOfAll(txs)
  {
    var front, last := txs[..|txs| - 1], txs[|txs| - 1];
    if tx != last {
      PutsOfEach(front, tx);
    } else {
      assert PutsOf(tx)[|PutsOf(tx)| - 1] == (Transaction(tx.hash), tx.data);
    }
  }

  /** What a push leaves in the database: every transaction, the index by nonce, and the records of the height. */
  lemma PushStores(db: map<Bytes, Bytes>, txs: seq<Stored>, s: Stored, height: nat, receipts: Bytes, index: Bytes,
      sequencer: Bytes)
    requires (forall tx :: tx in txs + [s] ==> IsStored(tx)) && Apart(txs + [s]) && height < UINT64
    ensures var db' := Apply(db, Encoded(PushPuts(txs, s, height, receipts, index, sequencer)));
      && Held(db', Receipts(height), receipts) && (txs != [] ==> Held(db', TxIndex(height), index))
      && Held(db', SequencerAt(height), sequencer) && Held(db', LatestSequencer, sequencer)
      && (forall tx :: tx in txs + [s] ==> Held(db', Transaction(tx.hash), tx.data))
      && (forall tx :: tx in txs + [s] && !tx.archive ==> Held(db', TxHashFlow(tx.sender, tx.nonce), tx.hash))
  {
    hide Held, Encoded, Apart, Consistent, PutsOfAll;
    var all, ps := PutsOfAll(txs + [s]), PushPuts(txs, s, height, receipts, index, sequencer);
    PushPutsConsistent(txs, s, height, receipts, index, sequencer);
    PushHolds(db, ps, Receipts(height), receipts);
    if txs != [] {
      PushHolds(db, ps, TxIndex(height), index);
    }
    PushHolds(db, ps, SequencerAt(height), sequencer);
    PushHolds(db, ps, LatestSequencer, sequencer);
    forall tx | tx in txs + [s]
      ensures Held(Apply(db, Encoded(ps)), Transaction(tx.hash), tx.data)
      ensures !tx.archive ==> Held(Apply(db, Encoded(ps)), TxHashFlow(tx.sender, tx.nonce), tx.hash)
    {
      PutsOfEach(txs + [s], tx);
      assert forall w :: w in all ==> w in ps;
      PushHolds(db, ps, Transaction(tx.hash), tx.data);
      if !tx.archive {
        PushHolds(db, ps, TxHashFlow(tx.sender, tx.nonce), tx.hash);
      }
    }
  }

  /** The batch of a push leaves every other key alone. */
  lemma PushLeaves(db: map<Bytes, Bytes>, txs: seq<Stored>, s: Stored, height: nat, receipts: Bytes, index: Bytes,
      sequencer: Bytes, k: Key)
    requires (forall tx :: tx in txs + [s] ==> IsStored(tx)) && Apart(txs + [s]) && height < UINT64 && IsKey(k)
    requires k !in {Receipts(height), TxIndex(height), SequencerAt(height), LatestSequencer}
    requires forall tx :: tx in txs + [s] ==> k != Transaction(tx.hash)
    requires forall tx :: tx in txs + [s] && !tx.archive ==> k != TxHashFlow(tx.sender, tx.nonce)
    ensures var db' := Apply(db, Encoded(PushPuts(txs, s, height, receipts, index, sequencer)));
      && (Encode(k) in db' <==> Encode(k) in db)
      && (Encode(k) in db ==> db'[Encode(k)] == db[Encode(k)])
  {
    hide Encode, Apart, Consistent, PutsOfAll, IsKey;
    var ps := PushPuts(txs, s, height, receipts, index, sequencer);
    PushPutsConsistent(txs, s, height, receipts, index, sequencer);
    forall i | 0 <= i < |ps| ensures Encoded(ps)[i].0 != Encode(k) {
      assert ps[i] in ps;
      if ps[i] in PutsOfAll(txs + [s]) {
        var tx := PutFrom(txs + [s], ps[i]);
      }
      KeysDisjoint(ps[i].0, k);
    }
    ApplyAt(db, Encoded(ps), Encode(k));
  }

  lemma TakeOne<T>(pending: multiset<T>, writes: seq<T>, lost: multiset<T>, w: T)
    requires w in pending
    ensures multiset(writes + [w]) + (pending - multiset{w}) + lost == multiset(writes) + pending + lost
    ensures multiset(writes) + (pending - multiset{w}) + (lost + multiset{w}) == multiset(writes) + pending + lost
  {
    assert multiset(writes + [w]) == multiset(writes) + multiset{w};
    assert pending == (pending - multiset{w}) + multiset{w};
  }

  /** Every put runs on a goroutine of its own; a put that fails records an error. */
  class Putter {
    const batch: Batch<Bytes, Byte>
    var pending: multiset<(Bytes, Bytes)>  // goroutines that have not put yet
    var failed: bool
    ghost var puts: seq<(Bytes, Bytes)>
    ghost var lost: multiset<(Bytes, Bytes)>

    /** Every put since the last write is in the batch, still to come, or lost with an error recorded. */
    ghost predicate Valid()
      reads this, batch
    {
      multiset(batch.writes) + pending + lost == multiset(puts) && (lost != multiset{} ==> failed)
    }

    constructor ()
      ensures Valid() && fresh(batch) && !failed && puts == [] && batch.writes == []
    {
      batch := new Batch<Bytes, Byte>();
      pending, failed, puts, lost := multiset{}, false, [], multiset{};
    }

    /**
     * Refused once a put has failed. Goroutines may get their turn before the call returns, and it
     * reports an error that one of them has recorded; `turns` says how often, and which of them fail.
     */
    method Put(key: Bytes, data: Bytes, turns: seq<bool>) returns (ok: bool)
      requires Valid()
      modifies this, batch
      ensures Valid() && ok == !failed
      ensures old(failed) ==> unchanged(this) && unchanged(batch)
      ensures !old(failed) ==> puts == old(puts) + [(key, data)] && old(batch.writes) <= batch.writes
      ensures !old(failed) && turns == [] ==> pending == old(pending) + multiset{(key, data)} && lost == old(lost)
      ensures !old(failed) && true !in turns ==> ok
    {
      if failed {
        return false;
      }
      Started(batch.writes, pending, lost, puts, (key, data));
      pending, puts := pending + multiset{(key, data)}, puts + [(key, data)];
      for i := 0 to |turns|
        invariant Valid() && puts == old(puts) + [(key, data)] && old(batch.writes) <= batch.writes
        invariant i == 0 ==> pending == old(pending) + multiset{(key, data)} && lost == old(lost)
        invariant true !in turns ==> !failed
      {
        if pending != multiset{} {
          ghost var w := Proceed(turns[i]);
        }
      }
      ok := !failed;
    }

    /** Some goroutine gets its turn, and puts its pair, or fails and loses it. */
    method Proceed(fails: bool) returns (ghost w: (Bytes, Bytes))
      requires Valid() && pending != multiset{}
      modifies this`pending, this`failed, this`lost, batch
      ensures Valid() && w in old(pending) && pending == old(pending) - multiset{w}
      ensures failed == (old(failed) || fails)
      ensures lost == if fails then old(lost) + multiset{w} else old(lost)
      ensures batch.writes == if fails then old(batch.writes) else old(batch.writes) + [w]
    {
      var v :| v in pending;
      w := v;
      TakeOne(pending, batch.writes, lost, v);
      pending := pending - multiset{v};
      if fails {
        failed, lost := true, lost + multiset{v};
      } else {
        batch.Put(v.0, v.1);
      }
      assert multiset(batch.writes) + pending + lost == old(multiset(batch.writes) + pending + lost);
    }

    /** Every goroutine that is left gets its turn; the i-th fails exactly if `fails(i)`. */
    method Wait(fails: nat -> bool)
      requires Valid() && !failed
      modifies this`pending, this`failed, this`lost, batch
      ensures Valid() && pending == multiset{} && old(batch.writes) <= batch.writes
      ensures (failed <==> lost != multiset{}) && lost <= old(pending)
      ensures failed <==> exists i :: 0 <= i < |old(pending)| && fails(i)
      ensures old(pending) == multiset{} ==> batch.writes == old(batch.writes)
    {
      hide Waiting;
      ghost var start, writes := pending, batch.writes;
      WaitStarts(start, writes, fails);
      var i := 0;
      while pending != multiset{}
        invariant Valid() && Waiting(start, writes, pending, lost, batch.writes, failed, i, fails)
        invariant i == 0 ==> batch.writes == writes
        decreases |pending|
      {
        WaitOnce(start, writes, i, fails);
        i := i + 1;
      }
      WaitEnds(start, writes, lost, batch.writes, failed, i, fails);
    }

    method WaitOnce(ghost start: multiset<(Bytes, Bytes)>, ghost writes: seq<(Bytes, Bytes)>, i: nat,
        fails: nat -> bool)
      requires Valid() && pending != multiset{}
      requires Waiting(start, writes, pending, lost, batch.writes, failed, i, fails)
      modifies this`pending, this`failed, this`lost, batch
      ensures Valid() && |pending| < |old(pending)|
      ensures Waiting(start, writes, pending, lost, batch.writes, failed, i + 1, fails)
    {
      hide Waiting;
      ghost var p, l, ws, f := pending, lost, batch.writes, failed;
      ghost var w := Proceed(fails(i));
      WaitNext(start, writes, p, l, ws, f, i, fails, w);
    }

    /**
     * Refused if a put has failed already; otherwise waits for all puts and writes those that made it.
     * `fails` says which of the puts that are waited for fail: success is reported all the same. `broken`
     * says that the store refuses the batch, which is emptied even so.
     */
    method Write(db: map<Bytes, Bytes>, fails: nat -> bool, broken: bool)
      returns (ok: bool, db': map<Bytes, Bytes>, ghost made: seq<(Bytes, Bytes)>, ghost gone: multiset<(Bytes, Bytes)>)
      requires Valid()
      modifies this, batch
      ensures ok == (!old(failed) && !broken)
      ensures old(failed) ==> db' == db && unchanged(this) && unchanged(batch)
      ensures !old(failed) ==> Valid() && pending == multiset{} && puts == [] && batch.writes == []
      ensures !old(failed) ==> multiset(made) + gone == multiset(old(puts)) && old(batch.writes) <= made
      ensures !old(failed) ==> db' == if broken then db else Apply(db, made)
      ensures !old(failed) ==> (failed <==> gone != multiset{}) && gone <= old(pending)
      ensures !old(failed) ==> (failed <==> exists i :: 0 <= i < |old(pending)| && fails(i))
      ensures !old(failed) && old(pending) == multiset{} ==> made == old(batch.writes)
      ensures ok && !failed && Consistent(old(puts)) ==> db' == Apply(db, old(puts))
    {
      hide Apply, Consistent;
      if failed {
        return false, db, [], multiset{};
      }
      Wait(fails);
      made, gone := batch.writes, lost;
      if Consistent(puts) && !failed {
        AnyOrder(db, puts, batch.writes);
      }
      db' := Flush(db, broken);
      ok := !broken;
    }

    /** The batch is written, unless the store refuses it, and emptied. */
    method Flush(db: map<Bytes, Bytes>, broken: bool) returns (db': map<Bytes, Bytes>)
      requires pending == multiset{}
      modifies this`puts, this`lost, batch
      ensures Valid() && puts == [] && batch.writes == []
      ensures db' == if broken then db else Apply(db, old(batch.writes))
    {
      db' := db;
      if !broken {
        db' := batch.Write(db);
      }
      batch.Reset();
      puts, lost := [], multiset{};
    }
  }

  lemma Started<T>(writes: seq<T>, pending: multiset<T>, lost: multiset<T>, puts: seq<T>, w: T)
    requires multiset(writes) + pending + lost == multiset(puts)
    ensures multiset(writes) + (pending + multiset{w}) + lost == multiset(puts + [w])
  {
  }

  /** Where waiting stands after `i` turns: each failed turn has lost the pair of one goroutine. */
  ghost predicate Waiting<T>(start: multiset<T>, writes: seq<T>, pending: multiset<T>, lost: multiset<T>,
      writes': seq<T>, failed: bool, i: nat, fails: nat -> bool)
  {
    && writes <= writes' && i + |pending| == |start| && pending + lost <= start
    && (failed <==> lost != multiset{}) && (failed <==> exists j :: 0 <= j < i && fails(j))
  }

  lemma WaitStarts<T>(start: multiset<T>, writes: seq<T>, fails: nat -> bool)
    ensures Waiting(start, writes, start, multiset{}, writes, false, 0, fails)
  {
  }

  lemma WaitNext<T>(start: multiset<T>, writes: seq<T>, pending: multiset<T>, lost: multiset<T>, writes': seq<T>,
      failed: bool, i: nat, fails: nat -> bool, w: T)
    requires Waiting(start, writes, pending, lost, writes', failed, i, fails) && w in pending
    ensures Waiting(start, writes, pending - multiset{w}, if fails(i) then lost + multiset{w} else lost,
      if fails(i) then writes' else writes' + [w], failed || fails(i), i + 1, fails)
    ensures |pending - multiset{w}| < |pending|
  {
    assert pending == pending - multiset{w} + multiset{w};
    assert pending - multiset{w} + (lost + multiset{w}) == pending + lost;
    assert fails(i) ==> w in lost + multiset{w};
  }

  lemma WaitEnds<T>(start: multiset<T>, writes: seq<T>, lost: multiset<T>, writes': seq<T>, failed: bool, i: nat,
      fails: nat -> bool)
    requires Waiting(start, writes, multiset{}, lost, writes', failed, i, fails)
    ensures writes <= writes' && lost <= start && i == |start|
    ensures (failed <==> lost != multiset{}) && (failed <==> exists j :: 0 <= j < i && fails(j))
  {
    assert multiset{} + lost == lost;
  }

  /** Witness, for a batch whose puts can fail: one fails while the write waits, is lost, and success is reported. */
  method LostPut(key: Bytes, data: Bytes) returns (ok: bool, db: map<Bytes, Bytes>)
    ensures ok && db == map[]
  {
    var putter := new Putter();
    var accepted := putter.Put(key, data, []);
    ghost var made, gone;
    var fails := (i: nat) => true;
    assert fails(0) && |putter.pending| == 1;
    ok, db, made, gone := putter.Write(map[], fails, false);
    assert |multiset(made) + gone| == |multiset([(key, data)])| == 1 && |multiset(made)| == |made|;
  }
}
