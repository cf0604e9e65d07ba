/** The flush-list: a doubly linked list threaded through the cached nodes, oldest first. */
module FlushLists {
  import opened Types
  import opened TrieNodes

  datatype Link = Link(prev: Hash, next: Hash)

  type Links = map<Hash, Link>

  function Head(list: seq<Hash>): Hash {
    if list == [] then ROOT else list[0]
  }

  /** The entry at `i` points on to its successor, and back to its predecessor if it has one. */
  ghost predicate LinkAt(links: Links, list: seq<Hash>, i: int)
    requires 0 <= i < |list|
  {
    && list[i] != ROOT && list[i] in links
    && links[list[i]].next == (if i + 1 < |list| then list[i + 1] else ROOT)
    && (i > 0 ==> links[list[i]].prev == list[i - 1])
  }

  /** The links thread exactly `list`. */
  ghost predicate Chain(links: Links, list: seq<Hash>) {
    && NoDup(list)
    && forall i {:trigger LinkAt(links, list, i)} :: 0 <= i < |list| ==> LinkAt(links, list, i)
  }

  function Cut(list: seq<Hash>, k: int): seq<Hash>
    requires 0 <= k < |list|
  {
    list[..k] + list[k + 1..]
  }

  /** What dereference and uncache do to the links of a node that is not the oldest. */
  function Bypass(links: Links, h: Hash): Links
    requires h in links && links[h].prev in links && links[h].next in links
  {
    var prev, next := links[h].prev, links[h].next;
    var links1 := links[prev := links[prev].(next := next)];
    links1[next := links1[next].(prev := prev)]
  }

  lemma CutOldest(links: Links, list: seq<Hash>)
    requires Chain(links, list) && list != []
    ensures Chain(links, list[1..]) && list[0] in links && links[list[0]].next == Head(list[1..])
    ensures Cut(list, 0) == list[1..]
  {
    assert LinkAt(links, list, 0);
    forall i | 0 <= i < |list[1..]| ensures LinkAt(links, list[1..], i) {
      assert LinkAt(links, list, i + 1);
    }
  }

  lemma CutLater(links: Links, list: seq<Hash>, k: int)
    requires Chain(links, list) && 0 < k < |list| && ROOT in links
    ensures LinkAt(links, list, k) && links[list[k]].prev in links && links[list[k]].next in links
    ensures Chain(Bypass(links, list[k]), Cut(list, k)) && Head(Cut(list, k)) == Head(list)
    ensures Bypass(links, list[k]).Keys == links.Keys
  {
    assert LinkAt(links, list, k) && LinkAt(links, list, k - 1);
    if k + 1 < |list| {
      assert LinkAt(links, list, k + 1);
    }
    var r, links' := Cut(list, k), Bypass(links, list[k]);
    forall i | 0 <= i < |r| ensures LinkAt(links', r, i) {
      assert LinkAt(links, list, if i < k then i else i + 1);
    }
  }

  /** What insert does to the links when the list is not empty. */
  function Appended(links: Links, newest: Hash, h: Hash): Links
    requires newest in links
  {
    var links1 := links[h := Link(newest, ROOT)];
    links1[newest := links1[newest].(next := h)]
  }

  lemma AppendFirst(links: Links, newest: Hash, h: Hash)
    requires h != ROOT
    ensures Chain(links[h := Link(newest, ROOT)], [h])
  {
    assert LinkAt(links[h := Link(newest, ROOT)], [h], 0);
  }

  lemma AppendLater(links: Links, list: seq<Hash>, h: Hash)
    requires Chain(links, list) && list != [] && h != ROOT && h !in links
    ensures list[|list| - 1] in links
    ensures Chain(Appended(links, list[|list| - 1], h), list + [h])
  {
    var newest, r := list[|list| - 1], list + [h];
    assert LinkAt(links, list, |list| - 1);
    var links' := Appended(links, newest, h);
    forall i | 0 <= i < |list| ensures list[i] in links && list[i] != h {
      assert LinkAt(links, list, i);
    }
    forall i | 0 <= i < |r| ensures LinkAt(links', r, i) {
      if i < |list| {
        assert LinkAt(links, list, i);
      }
    }
  }

  lemma DeleteUnlinked(links: Links, list: seq<Hash>, h: Hash)
    requires Chain(links, list) && h !in list
    ensures Chain(links - {h}, list)
  {
    forall i | 0 <= i < |list| ensures LinkAt(links - {h}, list, i) {
      assert LinkAt(links, list, i);
    }
  }

  /** The link back from the oldest entry is not part of the list. */
  lemma ResetOldest(links: Links, list: seq<Hash>, prev: Hash)
    requires Chain(links, list) && list != []
    ensures list[0] in links && Chain(links[list[0] := links[list[0]].(prev := prev)], list)
  {
    assert LinkAt(links, list, 0);
    var links' := links[list[0] := links[list[0]].(prev := prev)];
    forall i | 0 <= i < |list| ensures LinkAt(links', list, i) {
      assert LinkAt(links, list, i);
    }
  }

  lemma CutElems(list: seq<Hash>, k: int, s: set<Hash>)
    requires Lists(list, s) && 0 <= k < |list|
    ensures Lists(Cut(list, k), s - {list[k]}) && list[k] in s
  {
    var r := Cut(list, k);
    assert list[k] in Elems(list);
    forall x ensures x in Elems(r) <==> x in s - {list[k]} {
      if x in s - {list[k]} {
        assert x in Elems(list);
        var i :| 0 <= i < |list| && list[i] == x;
        assert r[if i < k then i else i - 1] == x;
      }
      if x in Elems(r) {
        var i :| 0 <= i < |r| && r[i] == x;
        assert list[if i < k then i else i + 1] == x;
        assert x in Elems(list);
      }
    }
  }
}
