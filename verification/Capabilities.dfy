/** Message codes of a connection: which subprotocol gets which range. */
module Capabilities {
  import opened Types
  import opened Sums
  import opened Sorting

  const BASE_LENGTH: nat := 16
  const CODES: nat := 0x1_0000

  datatype Cap = Cap(name: string, version: nat)

  datatype Protocol = Protocol(name: string, version: nat, length: nat)

  datatype Match = Match(version: nat, length: nat, offset: nat)

  type Matches = map<string, Match>

  // ---- the order of capabilities ----

  predicate Less(a: string, b: string) {
    if b == [] then false
    else if a == [] then true
    else a[0] < b[0] || (a[0] == b[0] && Less(a[1..], b[1..]))
  }

  predicate CapLess(a: Cap, b: Cap) {
    Less(a.name, b.name) || (a.name == b.name && a.version < b.version)
  }

  /** Names are compared at the first position where they differ; a prefix comes first. */
  lemma {:induction false} LessIs(a: string, b: string)
    ensures Less(a, b) <==>
      exists i :: 0 <= i <= |a| && i < |b| && a[..i] == b[..i] && (i == |a| || a[i] < b[i])
  {
    if a != [] && b != [] && a[0] == b[0] {
      LessIs(a[1..], b[1..]);
      if Less(a, b) {
        var a', b' := a[1..], b[1..];
        var i :| 0 <= i <= |a'| && i < |b'| && a'[..i] == b'[..i] && (i == |a'| || a'[i] < b'[i]);
        assert a[..i + 1] == [a[0]] + a[1..][..i] && b[..i + 1] == [b[0]] + b[1..][..i];
        assert a[..i + 1] == b[..i + 1] && (i + 1 == |a| || a[i + 1] < b[i + 1]);
      }
      if i :| 0 <= i <= |a| && i < |b| && a[..i] == b[..i] && (i == |a| || a[i] < b[i]) {
        assert i > 0;
        assert a[1..][..i - 1] == a[..i][1..] && b[1..][..i - 1] == b[..i][1..];
        assert a[1..][..i - 1] == b[1..][..i - 1] && (i - 1 == |a[1..]| || a[1..][i - 1] < b[1..][i - 1]);
      }
    } else if a != [] && b != [] {
      assert a[..0] == b[..0];
      if i :| 0 < i <= |a| && i < |b| && a[..i] == b[..i] {
        SameFirst(a, b, i);
      }
    } else if b != [] {
      assert a[..0] == b[..0];
    }
  }

  lemma SameFirst(a: string, b: string, i: nat)
    requires 0 < i <= |a| && i < |b| && a[..i] == b[..i]
    ensures a[0] == b[0]
  {
    assert a[..i][0] == b[..i][0];
  }

  lemma {:induction false} LessTotal(a: string, b: string)
    ensures a != b ==> Less(a, b) || Less(b, a)
    ensures !(Less(a, b) && Less(b, a)) && !Less(a, a)
  {
    if a != [] {
      LessTotal(a[1..], a[1..]);
      if b != [] && a[0] == b[0] {
        LessTotal(a[1..], b[1..]);
        assert a == [a[0]] + a[1..] && b == [b[0]] + b[1..];
      }
    }
  }

  lemma {:induction false} LessTransitive(a: string, b: string, c: string)
    requires Less(a, b) && Less(b, c)
    ensures Less(a, c)
  {
    if a != [] && a[0] == b[0] == c[0] {
      LessTransitive(a[1..], b[1..], c[1..]);
    }
  }

  function AtMostCap(): (Cap, Cap) -> bool {
    (a: Cap, b: Cap) => !CapLess(b, a)
  }

  lemma CapsOrdered()
    ensures TotalOrder(AtMostCap())
    ensures forall a, b :: AtMostCap()(a, b) <==> Less(a.name, b.name) || (a.name == b.name && a.version <= b.version)
  {
    forall a, b
      ensures AtMostCap()(a, b) <==> Less(a.name, b.name) || (a.name == b.name && a.version <= b.version)
    {
      LessTotal(a.name, b.name);
    }
    var le := AtMostCap();
    forall a, b ensures le(a, b) || le(b, a) {
      LessTotal(a.name, b.name);
    }
    forall a, b, c | le(a, b) && le(b, c) ensures le(a, c) {
      LessTotal(a.name, b.name);
      LessTotal(b.name, c.name);
      LessTotal(a.name, c.name);
      if CapLess(c, a) && a.name != b.name && b.name != c.name {
        LessTransitive(a.name, b.name, c.name);
      }
    }
  }

  // ---- what is shared ----

  predicate Offers(ps: seq<Protocol>, c: Cap) {
    exists i :: 0 <= i < |ps| && ps[i].name == c.name && ps[i].version == c.version
  }

  /** The length of the first protocol of that name and version. */
  function LengthOf(ps: seq<Protocol>, c: Cap): nat {
    if ps == [] then 0
    else if ps[0].name == c.name && ps[0].version == c.version then ps[0].length
    else LengthOf(ps[1..], c)
  }

  lemma {:induction false} LengthOfFirst(ps: seq<Protocol>, c: Cap, i: nat)
    requires i < |ps| && ps[i].name == c.name && ps[i].version == c.version
    requires forall j :: 0 <= j < i ==> !(ps[j].name == c.name && ps[j].version == c.version)
    ensures LengthOf(ps, c) == ps[i].length
  {
    if i > 0 {
      LengthOfFirst(ps[1..], c, i - 1);
    }
  }

  ghost function Shared(ps: seq<Protocol>, caps: seq<Cap>): set<Cap> {
    set c | c in caps && Offers(ps, c)
  }

  ghost function Names(s: set<Cap>): set<string> {
    set c | c in s :: c.name
  }

  ghost function Earlier(names: set<string>, n: string): set<string> {
    set m | m in names && Less(m, n)
  }

  ghost function LengthIn(r: Matches): string -> int {
    (n: string) => if n in r then r[n].length else 0
  }

  /** Where the codes of `n` would start without wrap-around. */
  ghost function Start(r: Matches, n: string): int {
    BASE_LENGTH + Sum(Earlier(r.Keys, n), LengthIn(r))
  }

  /** One past the last code. */
  ghost function End(r: Matches): int {
    BASE_LENGTH + Sum(r.Keys, LengthIn(r))
  }

  /** The highest shared version wins, and its length is what one side says it is. */
  ghost predicate MatchOk(r: Matches, s: set<Cap>, len: Cap -> nat, n: string) {
    n in r ==>
      && Cap(n, r[n].version) in s && r[n].length == len(Cap(n, r[n].version))
      && (forall c :: c in s && c.name == n ==> c.version <= r[n].version)
  }

  ghost predicate OffsetOk(r: Matches, n: string) {
    n in r ==> r[n].offset == Start(r, n) % CODES
  }

  /** One range for each shared name, in the order of names. */
  ghost predicate Allocated(r: Matches, s: set<Cap>, len: Cap -> nat) {
    && r.Keys == Names(s)
    && (forall n {:trigger MatchOk(r, s, len, n)} :: MatchOk(r, s, len, n))
    && (forall n {:trigger OffsetOk(r, n)} :: OffsetOk(r, n))
  }

  // ---- allocating ----

  /** `c` comes after everything shared so far. */
  ghost predicate ComesLast(s: set<Cap>, c: Cap) {
    forall x :: x in s ==> Less(x.name, c.name) || (x.name == c.name && x.version <= c.version)
  }

  function LengthHeld(r: Matches, n: string): int {
    if n in r then r[n].length else 0
  }

  function Reassigned(r: Matches, c: Cap, length: nat, offset: nat): Matches {
    r[c.name := Match(c.version, length, offset)]
  }

  lemma LastName(r: Matches, s: set<Cap>, c: Cap)
    requires r.Keys == Names(s) && ComesLast(s, c)
    ensures forall n :: n in r && n != c.name ==> Less(n, c.name)
    ensures Earlier(r.Keys + {c.name}, c.name) == r.Keys - {c.name}
  {
    forall n | n in r && n != c.name ensures Less(n, c.name) {
      var x :| x in s && x.name == n;
    }
    LessTotal(c.name, c.name);
  }

  /** The codes before the last name are all but its own. */
  lemma StartOfLast(r: Matches, s: set<Cap>, c: Cap, m: Match)
    requires r.Keys == Names(s) && ComesLast(s, c)
    ensures var r' := r[c.name := m];
      Start(r', c.name) == End(r) - LengthHeld(r, c.name) && End(r') == End(r) - LengthHeld(r, c.name) + m.length
  {
    var r', rest := r[c.name := m], r.Keys - {c.name};
    LastName(r, s, c);
    assert r'.Keys == r.Keys + {c.name};
    SumEq(rest, LengthIn(r), LengthIn(r'));
    if c.name in r {
      SumRemove(r.Keys, LengthIn(r), c.name);
    } else {
      assert rest == r.Keys;
    }
    assert r'.Keys - {c.name} == rest;
    SumRemove(r'.Keys, LengthIn(r'), c.name);
  }

  lemma StartOfOther(r: Matches, s: set<Cap>, c: Cap, m: Match, n: string)
    requires r.Keys == Names(s) && ComesLast(s, c) && n in r && n != c.name
    ensures Start(r[c.name := m], n) == Start(r, n)
  {
    var r' := r[c.name := m];
    LastName(r, s, c);
    LessTotal(n, c.name);
    assert Earlier(r'.Keys, n) == Earlier(r.Keys, n);
    SumEq(Earlier(r.Keys, n), LengthIn(r), LengthIn(r'));
  }

  /** Replacing the match of the last name by one of a higher version keeps the allocation. */
  lemma AllocateNext(r: Matches, s: set<Cap>, len: Cap -> nat, c: Cap, offset: nat)
    requires Allocated(r, s, len) && ComesLast(s, c) && offset == (End(r) - LengthHeld(r, c.name)) % CODES
    ensures var r' := Reassigned(r, c, len(c), offset);
      Allocated(r', s + {c}, len) && End(r') == End(r) - LengthHeld(r, c.name) + len(c)
  {
    hide Start, End;
    var r', m := Reassigned(r, c, len(c), offset), Match(c.version, len(c), offset);
    StartOfLast(r, s, c, m);
    assert Names(s + {c}) == Names(s) + {c.name};
    forall n ensures OffsetOk(r', n) {
      if n in r && n != c.name {
        assert OffsetOk(r, n);
        StartOfOther(r, s, c, m, n);
      }
    }
    LessTotal(c.name, c.name);
    forall n ensures MatchOk(r', s + {c}, len, n) {
      assert MatchOk(r, s, len, n);
    }
  }

  lemma AllocateNothing(len: Cap -> nat)
    ensures Allocated(map[], {}, len) && End(map[]) == BASE_LENGTH
  {
    var none: Matches := map[];
    assert none.Keys == {};
  }

  lemma SharedNext(ps: seq<Protocol>, caps: seq<Cap>, i: nat)
    requires i < |caps| && Ascending(caps, AtMostCap())
    ensures ComesLast(Shared(ps, caps[..i]), caps[i])
    ensures Shared(ps, caps[..i + 1]) == Shared(ps, caps[..i]) + if Offers(ps, caps[i]) then {caps[i]} else {}
  {
    assert caps[..i + 1] == caps[..i] + [caps[i]];
    forall x | x in Shared(ps, caps[..i])
      ensures Less(x.name, caps[i].name) || (x.name == caps[i].name && x.version <= caps[i].version)
    {
      var j :| 0 <= j < i && caps[j] == x;
      assert AtMostCap()(caps[j], caps[i]);
      LessTotal(x.name, caps[i].name);
    }
  }

  /** Looks for the first protocol of a name and version. */
  method FindProtocol(ps: seq<Protocol>, c: Cap) returns (found: Option<Protocol>)
    ensures found.Some? <==> Offers(ps, c)
    ensures found.Some? ==> found.value.length == LengthOf(ps, c)
  {
    var i := 0;
    while i < |ps|
      invariant 0 <= i <= |ps| && LengthOf(ps, c) == LengthOf(ps[i..], c)
      invariant forall j :: 0 <= j < i ==> !(ps[j].name == c.name && ps[j].version == c.version)
    {
      if ps[i].name == c.name && ps[i].version == c.version {
        return Some(ps[i]);
      }
      i := i + 1;
    }
    return None;
  }

  ghost function Lengths(ps: seq<Protocol>): Cap -> nat {
    (c: Cap) => LengthOf(ps, c)
  }

  /** Gives `c` the codes after the others, in place of an older version. */
  method Assign(r: Matches, offset: nat, c: Cap, length: nat, ghost s: set<Cap>, ghost len: Cap -> nat)
    returns (r': Matches, offset': nat)
    requires Allocated(r, s, len) && ComesLast(s, c) && offset == End(r) % CODES && length == len(c)
    ensures Allocated(r', s + {c}, len) && offset' == End(r') % CODES
  {
    hide Allocated, ComesLast, End;
    offset' := offset;
    if c.name in r {
      offset' := (offset' - r[c.name].length) % CODES;
    }
    AllocateNext(r, s, len, c, offset');
    r' := r[c.name := Match(c.version, length, offset')];
    offset' := (offset' + length) % CODES;
  }

  /** Matches the protocols of one side with the capabilities of the other. */
  method MatchProtocols(ps: seq<Protocol>, caps: seq<Cap>) returns (r: Matches)
    ensures Allocated(r, Shared(ps, caps), Lengths(ps))
  {
    hide Allocated, Shared, End, Offers, LengthOf, ComesLast;
    CapsOrdered();
    var sorted := Sort(caps, AtMostCap());
    var offset := BASE_LENGTH;
    r := map[];
    AllocateNothing(Lengths(ps));
    NothingShared(ps);
    assert sorted[..0] == [];
    var i := 0;
    while i < |sorted|
      invariant 0 <= i <= |sorted|
      invariant Allocated(r, Shared(ps, sorted[..i]), Lengths(ps)) && offset == End(r) % CODES
    {
      var c := sorted[i];
      SharedNext(ps, sorted, i);
      var found := FindProtocol(ps, c);
      if found.Some? {
        r, offset := Assign(r, offset, c, found.value.length, Shared(ps, sorted[..i]), Lengths(ps));
      } else {
        assert Shared(ps, sorted[..i + 1]) == Shared(ps, sorted[..i]);
      }
      i := i + 1;
    }
    assert sorted[..i] == sorted;
    SameShared(ps, caps, sorted);
  }

  /** A shared name gets the highest version that both sides know, with the length of a protocol of this side. */
  lemma HighestShared(ps: seq<Protocol>, caps: seq<Cap>, r: Matches, n: string)
    requires Allocated(r, Shared(ps, caps), Lengths(ps))
    ensures n in r <==> exists c :: c in caps && c.name == n && Offers(ps, c)
    ensures n in r ==>
      && Cap(n, r[n].version) in caps
      && (exists i :: 0 <= i < |ps| && ps[i] == Protocol(n, r[n].version, r[n].length))
      && (forall c, i :: c in caps && c.name == n && 0 <= i < |ps| && ps[i].name == n && ps[i].version == c.version ==>
        c.version <= r[n].version)
  {
    hide OffsetOk;
    assert n in r <==> n in Names(Shared(ps, caps));
    assert MatchOk(r, Shared(ps, caps), Lengths(ps), n);
    if n in r {
      OfferedLength(ps, Cap(n, r[n].version));
      forall c, i | c in caps && c.name == n && 0 <= i < |ps| && ps[i].name == n && ps[i].version == c.version
        ensures c.version <= r[n].version
      {
        assert c in Shared(ps, caps);
      }
    }
  }

  lemma {:induction false} OfferedLength(ps: seq<Protocol>, c: Cap)
    requires Offers(ps, c)
    ensures exists i :: 0 <= i < |ps| && ps[i] == Protocol(c.name, c.version, LengthOf(ps, c))
  {
    if ps[0].name != c.name || ps[0].version != c.version {
      OfferedLength(ps[1..], c);
      var i :| 0 <= i < |ps[1..]| && ps[1..][i] == Protocol(c.name, c.version, LengthOf(ps[1..], c));
      assert ps[i + 1] == ps[1..][i];
    }
  }

  lemma NothingShared(ps: seq<Protocol>)
    ensures Shared(ps, []) == {}
  {
  }

  lemma SameShared(ps: seq<Protocol>, caps: seq<Cap>, caps': seq<Cap>)
    requires multiset(caps) == multiset(caps')
    ensures Shared(ps, caps) == Shared(ps, caps')
  {
    assert forall c :: c in caps <==> c in multiset(caps);
    assert forall c :: c in caps' <==> c in multiset(caps');
  }

  // ---- both sides agree ----

  ghost function CapsOf(ps: seq<Protocol>): set<Cap> {
    set i | 0 <= i < |ps| :: Cap(ps[i].name, ps[i].version)
  }

  /** An allocation is determined by what is shared, and by the lengths of that. */
  lemma OneAllocation(r: Matches, r': Matches, s: set<Cap>, len: Cap -> nat, len': Cap -> nat)
    requires Allocated(r, s, len) && Allocated(r', s, len') && forall c :: c in s ==> len(c) == len'(c)
    ensures r == r'
  {
    hide Start;
    forall n | n in r ensures r[n].version == r'[n].version && r[n].length == r'[n].length {
      assert MatchOk(r, s, len, n) && MatchOk(r', s, len', n);
    }
    forall n | n in r ensures r[n] == r'[n] {
      SameStart(r, r', n);
      assert OffsetOk(r, n) && OffsetOk(r', n);
    }
  }

  lemma SameStart(r: Matches, r': Matches, n: string)
    requires r.Keys == r'.Keys && forall m :: m in r ==> r[m].length == r'[m].length
    ensures Start(r, n) == Start(r', n)
  {
    SumEq(Earlier(r.Keys, n), LengthIn(r), LengthIn(r'));
  }

  /** Two peers that announce their own protocols and agree on shared lengths allocate alike. */
  lemma PeersAgree(psA: seq<Protocol>, psB: seq<Protocol>, capsA: seq<Cap>, capsB: seq<Cap>, rA: Matches, rB: Matches)
    requires Elems(capsA) == CapsOf(psA) && Elems(capsB) == CapsOf(psB)
    requires forall c :: c in capsA && c in capsB ==> LengthOf(psA, c) == LengthOf(psB, c)
    requires Allocated(rA, Shared(psA, capsB), Lengths(psA)) && Allocated(rB, Shared(psB, capsA), Lengths(psB))
    ensures rA == rB
  {
    SharedBoth(psA, capsA, capsB);
    SharedBoth(psB, capsB, capsA);
    assert Elems(capsA) * Elems(capsB) == Elems(capsB) * Elems(capsA);
    forall c | c in Shared(psA, capsB) ensures LengthOf(psA, c) == LengthOf(psB, c) {
      assert c in Elems(capsA) && c in Elems(capsB);
    }
    OneAllocation(rA, rB, Shared(psA, capsB), Lengths(psA), Lengths(psB));
  }

  lemma SharedBoth(ps: seq<Protocol>, caps: seq<Cap>, caps': seq<Cap>)
    requires Elems(caps) == CapsOf(ps)
    ensures Shared(ps, caps') == Elems(caps) * Elems(caps')
  {
    forall c ensures c in Shared(ps, caps') <==> c in Elems(caps) * Elems(caps') {
      if Offers(ps, c) {
        var i :| 0 <= i < |ps| && ps[i].name == c.name && ps[i].version == c.version;
        assert Cap(ps[i].name, ps[i].version) in CapsOf(ps);
      }
      if c in CapsOf(ps) {
        var i :| 0 <= i < |ps| && Cap(ps[i].name, ps[i].version) == c;
      }
    }
  }

  // ---- the ranges ----

  /** The first name starts at 16. */
  lemma FirstOffset(r: Matches, s: set<Cap>, len: Cap -> nat, n: string)
    requires Allocated(r, s, len) && n in r && forall m :: m in r ==> !Less(m, n)
    ensures r[n].offset == 16
  {
    hide Less;
    assert OffsetOk(r, n);
    assert Earlier(r.Keys, n) == {};
  }

  /** Every other one starts where the name before it ends, wrapping at 2^16. */
  lemma NextOffset(r: Matches, s: set<Cap>, len: Cap -> nat, m: string, n: string)
    requires Allocated(r, s, len) && n in r && m in r && Less(m, n)
    requires forall x :: x in r && Less(x, n) ==> x == m || Less(x, m)
    ensures r[n].offset == (r[m].offset + r[m].length) % 65536
  {
    hide Less, Sum;
    assert OffsetOk(r, n) && OffsetOk(r, m);
    EarlierIs(r, m, n);
    LessTotal(m, m);
    SumAdd(Earlier(r.Keys, m), LengthIn(r), m);
    AddThenWrap(Start(r, m), r[m].length);
  }

  lemma AddThenWrap(x: int, l: int)
    ensures (x % 65536 + l) % 65536 == (x + l) % 65536
  {
  }

  lemma EarlierIs(r: Matches, m: string, n: string)
    requires m in r && Less(m, n) && forall x :: x in r && Less(x, n) ==> x == m || Less(x, m)
    ensures Earlier(r.Keys, n) == Earlier(r.Keys, m) + {m}
  {
    forall x | x in r && Less(x, m) ensures Less(x, n) {
      LessTransitive(x, m, n);
    }
  }

  /** The codes that are meant for `n`. */
  ghost predicate InRange(r: Matches, n: string, code: int) {
    n in r && Start(r, n) <= code < Start(r, n) + r[n].length
  }

  /** The test getProto makes; the end of the range wraps around. */
  predicate Handles(m: Match, code: nat) {
    m.offset <= code < (m.offset + m.length) % CODES
  }

  method GetProto(running: Matches, code: nat) returns (found: Option<string>)
    ensures found.Some? ==> found.value in running && Handles(running[found.value], code)
    ensures found.None? ==> forall n :: n in running ==> !Handles(running[n], code)
    ensures found.Some? <==> exists n ::
      n in running && running[n].offset <= code < (running[n].offset + running[n].length) % 65536
  {
    var left := running.Keys;
    while left != {}
      invariant left <= running.Keys
      invariant forall n :: n in running && n !in left ==> !Handles(running[n], code)
      decreases |left|
    {
      var n :| n in left;
      if Handles(running[n], code) {
        return Some(n);
      }
      left := left - {n};
    }
    return None;
  }

  lemma NextStart(r: Matches, m: string, n: string)
    requires m in r && n in r && Less(m, n)
    ensures Start(r, m) + r[m].length <= Start(r, n)
  {
    var e := Earlier(r.Keys, m) + {m};
    LessTotal(m, m);
    SumAdd(Earlier(r.Keys, m), LengthIn(r), m);
    forall x | x in e ensures x in Earlier(r.Keys, n) {
      if x != m {
        LessTransitive(x, m, n);
      }
    }
    SumSubset(e, Earlier(r.Keys, n), LengthIn(r));
  }

  lemma RangesDisjoint(r: Matches, m: string, n: string, code: int)
    requires InRange(r, m, code) && InRange(r, n, code)
    ensures m == n
  {
    hide Start;
    if m != n {
      LessTotal(m, n);
      if Less(m, n) {
        NextStart(r, m, n);
      } else {
        NextStart(r, n, m);
      }
    }
  }

  lemma WithinEnd(r: Matches, n: string)
    requires n in r
    ensures BASE_LENGTH <= Start(r, n) && Start(r, n) + r[n].length <= End(r)
  {
    LessTotal(n, n);
    SumNonneg(Earlier(r.Keys, n), LengthIn(r));
    SumAdd(Earlier(r.Keys, n), LengthIn(r), n);
    SumSubset(Earlier(r.Keys, n) + {n}, r.Keys, LengthIn(r));
  }

  lemma {:induction false} LastOf(s: set<string>) returns (x: string)
    requires s != {}
    ensures x in s && forall y :: y in s && y != x ==> Less(y, x)
    decreases |s|
  {
    var y :| y in s;
    if s == {y} {
      x := y;
    } else {
      var z := LastOf(s - {y});
      LessTotal(y, z);
      x := if Less(y, z) then z else y;
      forall w | w in s && w != x ensures Less(w, x) {
        if x == y && w != z {
          LessTransitive(w, z, y);
        }
      }
    }
  }

  /** Counting up by names leaves no code out. */
  lemma {:induction false} RangesCover(r: Matches, s: set<string>, code: int) returns (n: string)
    requires s <= r.Keys && (forall x, y :: x in s && y in r && Less(y, x) ==> y in s)
    requires BASE_LENGTH <= code < BASE_LENGTH + Sum(s, LengthIn(r))
    ensures InRange(r, n, code)
    decreases |s|
  {
    n := LastOf(s);
    var rest := s - {n};
    SumRemove(s, LengthIn(r), n);
    LessTotal(n, n);
    assert Earlier(r.Keys, n) == rest;
    if code < BASE_LENGTH + Sum(rest, LengthIn(r)) {
      forall x, y | x in rest && y in r && Less(y, x) ensures y in rest {
        LessTotal(x, n);
        assert y in s;
      }
      n := RangesCover(r, rest, code);
    }
  }

  ghost predicate Fits(r: Matches) {
    forall n {:trigger n in r} :: n in r ==> OffsetOk(r, n) && r[n].length < CODES
  }

  /** Every code gets to the protocol it is meant for, exactly when all codes fit below 2^16. */
  lemma CodesFit(r: Matches)
    requires Fits(r)
    ensures (forall n, code: nat :: InRange(r, n, code) && code < CODES ==> Handles(r[n], code)) <==> End(r) < 65536
  {
    hide Start;
    if End(r) < CODES {
      forall n, code: nat | InRange(r, n, code) ensures Handles(r[n], code) {
        WithinEnd(r, n);
        assert OffsetOk(r, n);
      }
    } else {
      var code: nat := CODES - 1;
      var n := RangesCover(r, r.Keys, code);
      assert OffsetOk(r, n);
      WithinEnd(r, n);
      assert InRange(r, n, code) && !Handles(r[n], code);
    }
  }

  /** Witness: one protocol of 65535 codes is allocated, and none of its codes is handled. */
  lemma CodesMissed(name: string, version: nat, code: nat)
    requires BASE_LENGTH <= code < CODES
    ensures var r := map[name := Match(version, CODES - 1, BASE_LENGTH)];
      Allocated(r, {Cap(name, version)}, (c: Cap) => CODES - 1) && InRange(r, name, code) && !Handles(r[name], code)
  {
    var r := map[name := Match(version, CODES - 1, BASE_LENGTH)];
    LessTotal(name, name);
    assert Earlier(r.Keys, name) == {};
    assert Names({Cap(name, version)}) == {name};
  }

  /** If the codes fit, each code from 16 up to the end has exactly one protocol, and no other code has any. */
  lemma OneHandler(r: Matches, code: nat)
    requires Fits(r) && End(r) < CODES
    ensures forall n :: n in r ==> (Handles(r[n], code) <==> InRange(r, n, code))
    ensures (exists n :: n in r && Handles(r[n], code)) <==> 16 <= code < End(r)
    ensures forall m, n :: m in r && n in r && Handles(r[m], code) && Handles(r[n], code) ==> m == n
  {
    hide Start, End;
    forall n | n in r ensures Handles(r[n], code) <==> InRange(r, n, code) {
      WithinEnd(r, n);
      assert OffsetOk(r, n);
    }
    forall n | n in r && Handles(r[n], code) ensures BASE_LENGTH <= code < End(r) {
      WithinEnd(r, n);
    }
    if BASE_LENGTH <= code < End(r) {
      CoveredBy(r, code);
    }
    forall m, n | m in r && n in r && Handles(r[m], code) && Handles(r[n], code) ensures m == n {
      RangesDisjoint(r, m, n, code);
    }
  }

  lemma CoveredBy(r: Matches, code: int)
    requires BASE_LENGTH <= code < End(r)
    ensures exists n :: InRange(r, n, code)
  {
    var n := RangesCover(r, r.Keys, code);
  }
}
