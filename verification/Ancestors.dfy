/** Searches through ancestors: what is missing, and what came before. */
module Ancestors {
  import opened Types
  import opened Graph

  const UINT64_MAX: nat := 0xFFFF_FFFF_FFFF_FFFF

  type Source = map<Hash, Tx>

  /** Subtracting one wraps around. */
  function Pred(n: nat): nat {
    if n == 0 then UINT64_MAX else n - 1
  }

  /** The pool is asked first, then the ledger. */
  function Found(pool: Source, dag: Source, h: Hash): Option<Tx> {
    if h in pool then Some(pool[h]) else if h in dag then Some(dag[h]) else None
  }

  ghost function Parents(source: Source): Succ<Hash> {
    map h | h in source :: Elems(source[h].parents)
  }

  // ---- missing ancestors ----

  /** Finds exactly the unknown hashes that known transactions lead to. */
  method MissingHashes(source: Source, tx: Tx) returns (missing: set<Hash>)
    ensures forall h :: h in missing <==> h !in source && Reached(Parents(source), tx.parents, h)
    ensures forall p :: p in tx.parents && p !in source ==> p in missing
    ensures forall h, p :: h in source && Reached(Parents(source), tx.parents, h) && p in source[h].parents ==>
      p in source || p in missing
  {
    ghost var m := Parents(source);
    var queue, dedup, visited := tx.parents, {}, {};
    missing := {};
    SearchStarts(m, tx.parents);
    while queue != []
      invariant Searching(m, tx.parents, queue, dedup, visited)
      invariant forall h :: h in missing <==> h in visited && h !in source
      decreases |Successors(m) - dedup|, |queue|
    {
      var hash := queue[0];
      if hash in visited {
        SearchRepeats(m, tx.parents, queue, dedup, visited);
        queue := queue[1..];
      } else if hash in source {
        queue, dedup := Expand(queue, dedup, source[hash].parents, m, tx.parents, visited);
        visited := visited + {hash};
      } else {
        SearchSkips(m, tx.parents, queue, dedup, visited);
        queue := queue[1..];
        visited, missing := visited + {hash}, missing + {hash};
      }
    }
    SearchEnds(m, tx.parents, dedup, visited);
    forall p | p in tx.parents && p !in source ensures p in missing {
      ReachedRoot(m, tx.parents, p);
    }
    forall h, p | h in source && Reached(m, tx.parents, h) && p in source[h].parents
      ensures p in source || p in missing
    {
      ReachedStep(m, tx.parents, h, p);
    }
  }

  // ---- the previous transaction of a sender ----

  /** The search goes on behind pool transactions only, and not behind sequencers. */
  ghost function Unconfirmed(pool: Source): Succ<Hash> {
    map h | h in pool && pool[h].kind != Sequencer :: Elems(pool[h].parents)
  }

  /** The search goes on from a pool transaction to its parents, unless it is a sequencer. */
  lemma Continues(pool: Source, roots: seq<Hash>, h: Hash, p: Hash)
    requires Reached(Unconfirmed(pool), roots, h) && h in pool && pool[h].kind != Sequencer && p in pool[h].parents
    ensures Reached(Unconfirmed(pool), roots, p)
  {
    ReachedStep(Unconfirmed(pool), roots, h, p);
  }

  /** It ends at sequencers and at what is not in the pool. */
  lemma EndsThere(pool: Source, h: Hash, p: Hash)
    requires h !in pool || pool[h].kind == Sequencer
    ensures Reached(Unconfirmed(pool), [h], p) <==> p == h
  {
    ReachedRoot(Unconfirmed(pool), [h], h);
    if Reached(Unconfirmed(pool), [h], p) {
      ReachedInClosed(Unconfirmed(pool), [h], {h}, p);
    }
  }

  predicate Precedes(t: Tx, tx: Tx) {
    t.kind != Archive && t.sender == tx.sender && t.nonce == Pred(tx.nonce)
  }

  /** The transaction at `h`, in the pool or else in the ledger, has the nonce before that of `tx`. */
  ghost predicate PrecededAt(pool: Source, dag: Source, tx: Tx, h: Hash) {
    (h in pool || h in dag) &&
      var t := if h in pool then pool[h] else dag[h];
      && t.kind != Archive && t.sender == tx.sender
      && if tx.nonce > 0 then t.nonce + 1 == tx.nonce else t.nonce == 0xFFFF_FFFF_FFFF_FFFF
  }

  lemma PrecededIs(pool: Source, dag: Source, tx: Tx, h: Hash)
    ensures PrecededAt(pool, dag, tx, h) <==> Found(pool, dag, h).Some? && Precedes(Found(pool, dag, h).value, tx)
  {
  }

  /**
   * Succeeds exactly for a first nonce, or when a transaction of the same sender with the nonce
   * before is reached through unconfirmed transactions.
   */
  method MyPreviousTx(pool: Source, dag: Source, tx: Tx) returns (ok: bool, previous: Option<Tx>)
    ensures ok <==>
      tx.nonce == 1 || exists h :: Reached(Unconfirmed(pool), tx.parents, h) && PrecededAt(pool, dag, tx, h)
    ensures tx.nonce == 1 || !ok ==> previous == None
    ensures ok && tx.nonce != 1 ==> exists h ::
      Reached(Unconfirmed(pool), tx.parents, h) && PrecededAt(pool, dag, tx, h)
        && previous == Some(if h in pool then pool[h] else dag[h])
  {
    hide Searching, Reached, Successors, PrecededAt, Precedes;
    if tx.nonce == 1 {
      return true, None;
    }
    ghost var m := Unconfirmed(pool);
    var seeking, seeked := tx.parents, {};
    ghost var done := {};
    SearchStarts(m, tx.parents);
    while seeking != []
      invariant Searching(m, tx.parents, seeking, seeked, done)
      invariant forall h :: h in done ==> !PrecededAt(pool, dag, tx, h)
      decreases |Successors(m) - seeked|, |seeking|
    {
      var head := seeking[0];
      var found := Found(pool, dag, head);
      PrecededIs(pool, dag, tx, head);
      if found.Some? && Precedes(found.value, tx) {
        HeadReached(m, tx.parents, seeking, seeked, done);
        return true, found;
      }
      if head in pool && pool[head].kind != Sequencer {
        seeking, seeked := Expand(seeking, seeked, pool[head].parents, m, tx.parents, done);
      } else {
        SearchSkips(m, tx.parents, seeking, seeked, done);
        seeking := seeking[1..];
      }
      done := done + {head};
    }
    SearchEnds(m, tx.parents, seeked, done);
    return false, None;
  }

  /** Witness: the ledger holds the predecessor, but no parent leads to it, so the search fails. */
  lemma PredecessorMissed(tx: Tx, previous: Tx, s: Tx)
    requires tx.nonce == 2 && tx.parents == [s.hash] && s.kind == Sequencer && s.sender != tx.sender
    requires previous.kind == Normal && previous.sender == tx.sender && previous.nonce == 1 && previous.hash != s.hash
    ensures var dag := map[s.hash := s, previous.hash := previous];
      && Precedes(dag[previous.hash], tx)
      && !exists h :: Reached(Unconfirmed(map[]), tx.parents, h) && PrecededAt(map[], dag, tx, h)
  {
    var m: Succ<Hash> := Unconfirmed(map[]);
    forall h | Reached(m, tx.parents, h) ensures h == s.hash {
      ReachedInClosed(m, tx.parents, {s.hash}, h);
    }
  }

  // ---- the previous sequencer ----

  /** At `h`, in the pool or else in the ledger, there is a sequencer one lower. */
  ghost predicate LowerAt(pool: Source, dag: Source, s: Tx, h: Hash) {
    (h in pool || h in dag) &&
      var t := if h in pool then pool[h] else dag[h];
      && t.kind == Sequencer
      && if s.height > 0 then t.height + 1 == s.height else t.height == 0xFFFF_FFFF_FFFF_FFFF
  }

  predicate IsLower(t: Tx, s: Tx) {
    t.kind == Sequencer && t.height == Pred(s.height)
  }

  lemma LowerIs(pool: Source, dag: Source, s: Tx, h: Hash)
    ensures LowerAt(pool, dag, s, h) <==> Found(pool, dag, h).Some? && IsLower(Found(pool, dag, h).value, s)
  {
  }

  /** A sequencer one lower that pool transactions lead to, or else the confirmed one of that height. */
  method PreviousSequencer(pool: Source, dag: Source, confirmed: map<nat, Tx>, s: Tx)
    returns (ok: bool, previous: Option<Tx>)
    ensures (exists h :: Reached(Parents(pool), [s.hash], h) && LowerAt(pool, dag, s, h)) ==>
      ok && exists h ::
        Reached(Parents(pool), [s.hash], h) && LowerAt(pool, dag, s, h)
          && previous == Some(if h in pool then pool[h] else dag[h])
    ensures !(exists h :: Reached(Parents(pool), [s.hash], h) && LowerAt(pool, dag, s, h)) ==>
      var n := if s.height > 0 then s.height - 1 else 0xFFFF_FFFF_FFFF_FFFF;
      (ok <==> n in confirmed) && previous == if ok then Some(confirmed[n]) else None
  {
    hide Searching, Reached, Successors, LowerAt, IsLower;
    ghost var m := Parents(pool);
    var seeking, seeked := [s.hash], {};
    ghost var done := {};
    SearchStarts(m, [s.hash]);
    while seeking != []
      invariant Searching(m, [s.hash], seeking, seeked, done)
      invariant forall h :: h in done ==> !LowerAt(pool, dag, s, h)
      decreases |Successors(m) - seeked|, |seeking|
    {
      var head := seeking[0];
      var found := Found(pool, dag, head);
      LowerIs(pool, dag, s, head);
      if found.Some? && IsLower(found.value, s) {
        HeadReached(m, [s.hash], seeking, seeked, done);
        return true, found;
      }
      if head in pool {
        seeking, seeked := Expand(seeking, seeked, pool[head].parents, m, [s.hash], done);
      } else {
        SearchSkips(m, [s.hash], seeking, seeked, done);
        seeking := seeking[1..];
      }
      done := done + {head};
    }
    SearchEnds(m, [s.hash], seeked, done);
    if Pred(s.height) in confirmed {
      return true, Some(confirmed[Pred(s.height)]);
    }
    return false, None;
  }
}
