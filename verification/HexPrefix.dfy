/** The encodings of trie keys: bytes, nibbles, and the compact form that is stored. */
module HexPrefix {
  type Byte = b: nat | b < 256

  type Bytes = seq<Byte>

  const TERMINATOR: Byte := 16

  // ---- nibbles ----

  function Split(bs: Bytes): Bytes {
    if bs == [] then [] else [bs[0] / 16, bs[0] % 16] + Split(bs[1..])
  }

  predicate AreNibbles(ns: Bytes) {
    forall i :: 0 <= i < |ns| ==> ns[i] < 16
  }

  function Join(ns: Bytes): Bytes
    requires AreNibbles(ns) && |ns| % 2 == 0
  {
    if ns == [] then [] else [ns[0] * 16 + ns[1]] + Join(ns[2..])
  }

  lemma {:induction false} SplitNibbles(bs: Bytes)
    ensures AreNibbles(Split(bs)) && |Split(bs)| == 2 * |bs|
  {
    if bs != [] {
      SplitNibbles(bs[1..]);
    }
  }

  lemma {:induction false} JoinSplit(bs: Bytes)
    ensures AreNibbles(Split(bs)) && |Split(bs)| == 2 * |bs| && Join(Split(bs)) == bs
  {
    SplitNibbles(bs);
    if bs != [] {
      JoinSplit(bs[1..]);
      assert Split(bs)[2..] == Split(bs[1..]);
    }
  }

  lemma {:induction false} SplitJoin(ns: Bytes)
    requires AreNibbles(ns) && |ns| % 2 == 0
    ensures Split(Join(ns)) == ns && |Join(ns)| == |ns| / 2
  {
    if ns != [] {
      SplitJoin(ns[2..]);
      assert Join(ns)[1..] == Join(ns[2..]);
      assert ns == [ns[0], ns[1]] + ns[2..];
    }
  }

  lemma {:induction false} SplitAt(bs: Bytes, i: nat)
    requires i < |bs|
    ensures |Split(bs)| == 2 * |bs| && Split(bs)[2 * i] == bs[i] / 16 && Split(bs)[2 * i + 1] == bs[i] % 16
  {
    SplitNibbles(bs);
    if i > 0 {
      SplitAt(bs[1..], i - 1);
    }
  }

  lemma {:induction false} JoinAt(ns: Bytes, i: nat)
    requires AreNibbles(ns) && |ns| % 2 == 0 && 2 * i < |ns|
    ensures |Join(ns)| == |ns| / 2 && Join(ns)[i] == ns[2 * i] * 16 + ns[2 * i + 1]
  {
    SplitJoin(ns);
    if i > 0 {
      JoinAt(ns[2..], i - 1);
    }
  }

  // ---- the three encodings ----

  predicate HasTerm(s: Bytes) {
    |s| > 0 && s[|s| - 1] == TERMINATOR
  }

  function Body(hex: Bytes): Bytes {
    if HasTerm(hex) then hex[..|hex| - 1] else hex
  }

  /** Nibbles, and perhaps a terminator at the end. */
  predicate IsHex(hex: Bytes) {
    AreNibbles(Body(hex))
  }

  predicate Odd(n: int) {
    n % 2 == 1
  }

  /** What is to the left of the first nibble of the key: only the flags, or a zero nibble, too. */
  function Chop(flags: nat): nat {
    2 - flags % 2
  }

  function Flags(hex: Bytes): nat {
    (if HasTerm(hex) then 2 else 0) + if Odd(|Body(hex)|) then 1 else 0
  }

  /** The nibbles that go into whole bytes. */
  function Even(hex: Bytes): Bytes {
    if Odd(|Body(hex)|) then Body(hex)[1..] else Body(hex)
  }

  function Compact(hex: Bytes): Bytes
    requires IsHex(hex)
  {
    [Flags(hex) * 16 + if Odd(|Body(hex)|) then Body(hex)[0] else 0] + Join(Even(hex))
  }

  function Expand(compact: Bytes): Bytes
    requires compact != []
  {
    SplitNibbles(compact);
    var nibbles := Split(compact);
    nibbles[Chop(nibbles[0])..] + if nibbles[0] < 2 then [] else [TERMINATOR]
  }

  /** Only the two flag bits are set, and there is no nibble to the left of an even number of nibbles. */
  predicate Canonical(compact: Bytes) {
    compact != [] && compact[0] / 16 < 4 && (Odd(compact[0] / 16) || compact[0] % 16 == 0)
  }

  /**
   * The compact form, byte by byte: the first one holds 32 for a terminator and 16 with the first nibble for an
   * odd number of nibbles, the others two nibbles each, the higher one first.
   */
  lemma CompactIs(hex: Bytes, i: nat)
    requires IsHex(hex)
    ensures var term := hex != [] && hex[|hex| - 1] == 16;
      var n := if term then |hex| - 1 else |hex|;
      && |Compact(hex)| == n / 2 + 1
      && Compact(hex)[0] == (if term then 32 else 0) + (if n % 2 == 1 then 16 + hex[0] else 0)
      && (i < n / 2 ==> Compact(hex)[i + 1] == hex[n % 2 + 2 * i] * 16 + hex[n % 2 + 2 * i + 1])
  {
    hide Join;
    SplitJoin(Even(hex));
    if 2 * i < |Even(hex)| {
      JoinAt(Even(hex), i);
    }
  }

  // ---- round trips ----

  lemma FlagParity(n: nat, f: nat, l: int)
    requires l == 2 * n - Chop(f)
    ensures (Odd(l) <==> Odd(f)) && Chop(f) == if Odd(f) then 1 else 2
  {
    assert f % 2 == 0 || f % 2 == 1;
    assert l == 2 * (n - 1) + f % 2;
  }

  lemma FlagsParity(hex: Bytes)
    ensures Flags(hex) < 4 && (Flags(hex) >= 2 <==> HasTerm(hex)) && (Odd(Flags(hex)) <==> Odd(|Body(hex)|))
    ensures Chop(Flags(hex)) == if Odd(|Body(hex)|) then 1 else 2
  {
  }

  lemma SplitHead(compact: Bytes)
    requires compact != []
    ensures var ns := Split(compact);
      && |ns| == 2 * |compact| && AreNibbles(ns)
      && ns[0] == compact[0] / 16 && ns[1] == compact[0] % 16 && ns[2..] == Split(compact[1..])
  {
    SplitNibbles(compact);
  }

  lemma PackedByte(f: nat, x: nat)
    requires x < 16
    ensures (f * 16 + x) / 16 == f && (f * 16 + x) % 16 == x
  {
  }

  lemma SplitCons(b: Byte, ns: Bytes)
    requires AreNibbles(ns) && |ns| % 2 == 0
    ensures Split([b] + Join(ns)) == [b / 16, b % 16] + ns
  {
    SplitJoin(ns);
    assert ([b] + Join(ns))[1..] == Join(ns);
  }

  /** The nibbles of a compact key: flags, the odd nibble or zero, and the rest. */
  lemma SplitCompact(hex: Bytes)
    requires IsHex(hex)
    ensures Split(Compact(hex)) == [Flags(hex), if Odd(|Body(hex)|) then Body(hex)[0] else 0] + Even(hex)
    ensures Canonical(Compact(hex))
  {
    hide Split, Join, Odd, Flags, Even, HasTerm;
    EvenPart(hex);
    var x := if Odd(|Body(hex)|) then Body(hex)[0] else 0;
    FlagsParity(hex);
    PackedByte(Flags(hex), x);
    SplitCons(Flags(hex) * 16 + x, Even(hex));
  }

  lemma EvenPart(hex: Bytes)
    requires IsHex(hex)
    ensures AreNibbles(Even(hex)) && |Even(hex)| % 2 == 0 && (Odd(|Body(hex)|) ==> Body(hex) != [] && Body(hex)[0] < 16)
  {
    hide HasTerm, Body;
  }

  lemma ExpandCompact(hex: Bytes)
    requires IsHex(hex)
    ensures Canonical(Compact(hex)) && Expand(Compact(hex)) == hex
  {
    SplitCompact(hex);
    FlagsParity(hex);
    hide Compact, Join, Split, Odd, Flags, Chop;
    var body, ns := Body(hex), Split(Compact(hex));
    assert hex == body + if HasTerm(hex) then [TERMINATOR] else [];
    assert ns[Chop(ns[0])..] == body;
  }

  lemma Terminated(ns: Bytes, term: bool)
    requires AreNibbles(ns)
    ensures var r := ns + if term then [TERMINATOR] else []; Body(r) == ns && (HasTerm(r) <==> term)
  {
  }

  lemma ExpandIsHex(compact: Bytes)
    requires compact != []
    ensures var ns, hex := Split(compact), Expand(compact);
      && |ns| == 2 * |compact| && IsHex(hex) && (HasTerm(hex) <==> ns[0] >= 2) && Body(hex) == ns[Chop(ns[0])..]
  {
    SplitHead(compact);
    var ns := Split(compact);
    Terminated(ns[Chop(ns[0])..], ns[0] >= 2);
    hide Split, HasTerm, Body;
  }

  lemma SameByte(a: Byte, b: Byte)
    requires a / 16 == b / 16 && a % 16 == b % 16
    ensures a == b
  {
  }

  /** Expanding takes the nibbles apart again. */
  lemma ExpandParts(compact: Bytes)
    requires Canonical(compact)
    ensures var hex, ns := Expand(compact), Split(compact);
      && |ns| == 2 * |compact| && Flags(hex) == ns[0] && Even(hex) == ns[2..]
      && (Odd(|Body(hex)|) <==> Odd(ns[0])) && (Odd(ns[0]) ==> Body(hex) == ns[1..])
  {
    hide Split, Expand, HasTerm, Body, Odd;
    ExpandIsHex(compact);
    SplitHead(compact);
    var ns, hex := Split(compact), Expand(compact);
    FlagParity(|compact|, ns[0], |Body(hex)|);
    FlagValue(ns[0]);
    if Odd(ns[0]) {
      assert ns[1..][1..] == ns[2..];
    }
  }

  lemma FlagValue(f: nat)
    requires f < 4
    ensures f == (if f >= 2 then 2 else 0) + if Odd(f) then 1 else 0
  {
  }

  lemma CompactOfCanonical(compact: Bytes)
    requires Canonical(compact) && IsHex(Expand(compact))
    ensures Compact(Expand(compact)) == compact
  {
    var hex, ns := Expand(compact), Split(compact);
    ExpandParts(compact);
    SplitHead(compact);
    JoinSplit(compact[1..]);
    hide Split, Join, Expand, HasTerm, Body, Odd, Flags, Even;
    var c := Compact(hex);
    SameByte(c[0], compact[0]);
    assert c[1..] == compact[1..];
    assert compact == [compact[0]] + compact[1..];
  }

  /** The stored form comes back exactly when it is canonical. */
  lemma CompactExpand(compact: Bytes)
    requires compact != []
    ensures IsHex(Expand(compact)) && (Compact(Expand(compact)) == compact <==> Canonical(compact))
  {
    hide Compact, Expand;
    ExpandIsHex(compact);
    ExpandCompact(Expand(compact));
    if Canonical(compact) {
      CompactOfCanonical(compact);
    }
  }

  /** Witness: a low nibble beside an even flag is lost. */
  lemma NibbleLost()
    ensures !Canonical([1]) && Expand([1]) == [] && Compact(Expand([1])) == [0]
  {
    assert Split([1]) == [0, 1];
    assert Join([]) == [];
  }

  function KeyToHex(key: Bytes): Bytes {
    Split(key) + [TERMINATOR]
  }

  function HexToKey(hex: Bytes): Bytes
    requires IsHex(hex) && |Body(hex)| % 2 == 0
  {
    Join(Body(hex))
  }

  lemma KeyRoundTrip(key: Bytes)
    ensures IsHex(KeyToHex(key)) && |Body(KeyToHex(key))| % 2 == 0 && HexToKey(KeyToHex(key)) == key
  {
    JoinSplit(key);
    assert Body(KeyToHex(key)) == Split(key);
  }

  /** Hex keys come back exactly when they carry the terminator. */
  lemma HexRoundTrip(hex: Bytes)
    requires IsHex(hex) && |Body(hex)| % 2 == 0
    ensures KeyToHex(HexToKey(hex)) == hex <==> HasTerm(hex)
  {
    SplitJoin(Body(hex));
  }

  // ---- the loops ----

  /** Packs pairs of nibbles into `bytes`, from `at` on. */
  method DecodeNibbles(nibbles: Bytes, bytes: array<Byte>, at: nat)
    requires AreNibbles(nibbles) && |nibbles| % 2 == 0 && at + |nibbles| / 2 == bytes.Length
    modifies bytes
    ensures bytes[..] == old(bytes[..at]) + Join(nibbles)
  {
    var bi, ni := at, 0;
    while ni < |nibbles|
      invariant 0 <= ni <= |nibbles| && ni % 2 == 0 && bi == at + ni / 2
      invariant bytes[..at] == old(bytes[..at])
      invariant forall k :: 0 <= k < ni / 2 ==> bytes[at + k] == nibbles[2 * k] * 16 + nibbles[2 * k + 1]
    {
      bytes[bi] := nibbles[ni] * 16 + nibbles[ni + 1];
      bi, ni := bi + 1, ni + 2;
    }
    SplitJoin(nibbles);
    forall k | 0 <= k < |nibbles| / 2 ensures bytes[at + k] == Join(nibbles)[k] {
      JoinAt(nibbles, k);
    }
    assert bytes[at..] == Join(nibbles);
    assert bytes[..] == bytes[..at] + bytes[at..];
  }

  method KeybytesToHex(str: Bytes) returns (hex: Bytes)
    ensures hex == KeyToHex(str)
  {
    var l := |str| * 2 + 1;
    var nibbles := new Byte[l];
    for i := 0 to |str|
      invariant forall k :: 0 <= k < i ==> nibbles[2 * k] == str[k] / 16 && nibbles[2 * k + 1] == str[k] % 16
    {
      nibbles[i * 2] := str[i] / 16;
      nibbles[i * 2 + 1] := str[i] % 16;
    }
    nibbles[l - 1] := TERMINATOR;
    SplitNibbles(str);
    forall k | 0 <= k < |Split(str)| ensures nibbles[k] == Split(str)[k] {
      SplitAt(str, k / 2);
      assert k == 2 * (k / 2) || k == 2 * (k / 2) + 1;
    }
    hex := nibbles[..];
    assert hex[..l - 1] == Split(str);
  }

  method HexToKeybytes(hex: Bytes) returns (key: Bytes)
    requires IsHex(hex) && |Body(hex)| % 2 == 0
    ensures key == HexToKey(hex)
  {
    var nibbles := if HasTerm(hex) then hex[..|hex| - 1] else hex;
    var buf := new Byte[|nibbles| / 2];
    DecodeNibbles(nibbles, buf, 0);
    key := buf[..];
  }

  method HexToCompact(hex: Bytes) returns (compact: Bytes)
    requires IsHex(hex)
    ensures compact == Compact(hex)
  {
    var terminator, nibbles := 0, hex;
    if HasTerm(hex) {
      terminator, nibbles := 1, hex[..|hex| - 1];
    }
    var buf := new Byte[|nibbles| / 2 + 1];
    buf[0] := terminator * 32;
    if |nibbles| % 2 == 1 {
      buf[0] := buf[0] + 16 + nibbles[0];
      nibbles := nibbles[1..];
    }
    assert buf[..1] == [buf[0]];
    DecodeNibbles(nibbles, buf, 1);
    compact := buf[..];
  }

  method CompactToHex(compact: Bytes) returns (hex: Bytes)
    requires compact != []
    ensures hex == Expand(compact)
  {
    var base := KeybytesToHex(compact);
    SplitNibbles(compact);
    if base[0] < 2 {
      base := base[..|base| - 1];
    }
    var chop := 2 - base[0] % 2;
    hex := base[chop..];
  }
}
