/** The orphan buffer: transactions wait until their parents are local, and are then released in a cascade. */
module OrphanBuffer {
  import opened Types
  import opened Orphans

  datatype Buffer = Buffer(dep: Deps, known: Known, local: set<Hash>, adds: seq<Tx>)

  /** What holds at every moment of a cascade. */
  ghost predicate Sound(b: Buffer, initial: set<Hash>, arrived: set<Tx>) {
    && DepsOk(b.dep, b.known, b.local) && SelfOk(b.dep, b.known)
    && LogOk(initial, b.adds, b.local) && ArrivedOk(arrived, b.adds, b.known, b.local)
  }

  /** A cascade led from `a` to `b`, and what is ready then is among `todo`. */
  ghost predicate Cascade(a: Buffer, b: Buffer, initial: set<Hash>, arrived: set<Tx>, todo: set<Tx>) {
    && Sound(b, initial, arrived) && Todo(b.known, b.local, todo)
    && Later(a.known, a.local, b.known, b.local)
    && b.dep.Keys <= a.dep.Keys && a.adds <= b.adds
  }

  lemma CascadeOn(a: Buffer, b: Buffer, c: Buffer, initial: set<Hash>, arrived: set<Tx>, todo: set<Tx>, todo': set<Tx>)
    requires Cascade(a, b, initial, arrived, todo) && Cascade(b, c, initial, arrived, todo')
    ensures Cascade(a, c, initial, arrived, todo')
  {
    LaterLater(a.known, a.local, b.known, b.local, c.known, c.local);
  }

  /** What Resolve does before it turns to the waiting transactions. */
  function Release(b: Buffer, tx: Tx): Buffer {
    Buffer(b.dep - {tx.hash}, b.known - {tx.hash}, b.local + {tx.hash}, b.adds + [tx])
  }

  /** Ready to be released: all parents local, and known under its own hash if at all. */
  ghost predicate Releasable(b: Buffer, initial: set<Hash>, arrived: set<Tx>, tx: Tx) {
    && DepsOk(b.dep, b.known, b.local) && SelfOk(b.dep, b.known - {tx.hash})
    && LogOk(initial, b.adds, b.local) && ArrivedOk(arrived, b.adds, b.known, b.local)
    && tx in arrived && AllLocal(tx, b.local) && (tx.hash in b.known ==> b.known[tx.hash] == tx)
  }

  lemma ReleaseCascades(b: Buffer, initial: set<Hash>, arrived: set<Tx>, tx: Tx, todo: set<Tx>)
    requires Releasable(b, initial, arrived, tx) && Todo(b.known, b.local, todo + {tx})
    ensures Cascade(b, Release(b, tx), initial, arrived,
      if tx.hash in b.dep then todo + (b.dep[tx.hash] - {tx.hash}).Values else todo)
  {
    Released(b.dep, b.known, b.local, tx, todo);
    LogSnoc(initial, b.adds, b.local, tx);
    ReleaseArrived(b, arrived, tx);
    hide DepsOk, SelfOk, LogOk, ArrivedOk, Todo, Later;
  }

  lemma ReleaseArrived(b: Buffer, arrived: set<Tx>, tx: Tx)
    requires ArrivedOk(arrived, b.adds, b.known, b.local) && tx in arrived
    ensures ArrivedOk(arrived, b.adds + [tx], b.known - {tx.hash}, b.local + {tx.hash})
  {
  }

  lemma WaitersSettled(b: Buffer, k: Hash, v: Hash)
    requires DepsOk(b.dep, b.known, b.local) && k in b.dep && v in b.dep[k]
    ensures Settled(b.known, b.local, b.dep[k][v]) && b.dep[k][v].hash == v
    ensures v in b.known && b.known[v] == b.dep[k][v]
  {
    assert EntryOk(b.known, k, v, b.dep[k][v]);
  }

  lemma ArrivedMore(arrived: set<Tx>, adds: seq<Tx>, known: Known, local: set<Hash>, tx: Tx)
    requires ArrivedOk(arrived, adds, known, local)
    ensures tx.hash in local || (tx.hash in known && known[tx.hash] == tx) ==>
      ArrivedOk(arrived + {tx}, adds, known, local)
    ensures tx.hash !in known ==> ArrivedOk(arrived + {tx}, adds, known[tx.hash := tx], local)
  {
  }

  lemma FetchedDeps(dep: Deps, known: Known, local: set<Hash>, tx: Tx)
    requires DepsOk(dep, known, local) && tx.hash !in known && tx.hash !in local && AllLocal(tx, local)
    ensures DepsOk(dep, known[tx.hash := tx], local)
  {
    var known' := known[tx.hash := tx];
    forall k, h | k in dep && h in dep[k] ensures EntryOk(known', k, h, dep[k][h]) {
      assert EntryOk(known, k, h, dep[k][h]);
    }
  }

  /** An arrival without missing parents can be released at once. */
  lemma FetchedIsReleasable(b: Buffer, initial: set<Hash>, arrived: set<Tx>, tx: Tx)
    requires Sound(b, initial, arrived) && Todo(b.known, b.local, {})
    requires tx.hash !in b.known && tx.hash !in b.local && Missing(tx, b.local) == {}
    ensures Releasable(b.(known := b.known[tx.hash := tx]), initial, arrived + {tx}, tx)
    ensures Todo(b.known[tx.hash := tx], b.local, {} + {tx})
  {
    hide DepsOk, SelfOk, LogOk, ArrivedOk;
    ArrivedMore(arrived, b.adds, b.known, b.local, tx);
    forall p | p in tx.parents ensures p in b.local {
      assert p !in Missing(tx, b.local);
    }
    FetchedDeps(b.dep, b.known, b.local, tx);
    assert b.known[tx.hash := tx] - {tx.hash} == b.known;
  }

  lemma SmallerDeps(dep: Deps, k: Hash)
    requires k in dep
    ensures |dep - {k}| < |dep|
  {
    assert (dep - {k}).Keys == dep.Keys - {k};
  }

  lemma NoMoreDeps(a: Buffer, b: Buffer, initial: set<Hash>, arrived: set<Tx>, todo: set<Tx>)
    requires Cascade(a, b, initial, arrived, todo)
    ensures |b.dep| <= |a.dep| && a.local <= b.local && a.adds <= b.adds
  {
    var gone := a.dep.Keys - b.dep.Keys;
    assert a.dep.Keys == b.dep.Keys + gone;
  }

  lemma WeakerTodo(a: Buffer, b: Buffer, initial: set<Hash>, arrived: set<Tx>, todo: set<Tx>, todo': set<Tx>)
    requires Cascade(a, b, initial, arrived, todo) && todo <= todo'
    ensures Cascade(a, b, initial, arrived, todo') && Sound(b, initial, arrived) && Todo(b.known, b.local, todo')
  {
  }

  lemma AllSettled(a: Buffer, b: Buffer, initial: set<Hash>, arrived: set<Tx>, k: Hash, todo: set<Tx>)
    requires DepsOk(a.dep, a.known, a.local) && ArrivedOk(arrived, a.adds, a.known, a.local)
    requires k in a.dep && Cascade(a, b, initial, arrived, todo)
    ensures forall v :: v in a.dep[k] ==>
      Settled(b.known, b.local, a.dep[k][v]) && a.dep[k][v].hash == v && a.dep[k][v] in arrived
  {
    forall v | v in a.dep[k]
      ensures Settled(b.known, b.local, a.dep[k][v]) && a.dep[k][v].hash == v && a.dep[k][v] in arrived
    {
      WaitersSettled(a, k, v);
      LaterSettled(a.known, a.local, b.known, b.local, a.dep[k][v]);
    }
  }

  lemma StillSettled(a: Buffer, b: Buffer, c: Buffer, vs: Known, initial: set<Hash>, arrived: set<Tx>, todo: set<Tx>,
      todo': set<Tx>)
    requires Cascade(a, b, initial, arrived, todo) && Cascade(b, c, initial, arrived, todo')
    requires forall h :: h in vs ==> Settled(b.known, b.local, vs[h])
    ensures Cascade(a, c, initial, arrived, todo')
    ensures |c.dep| <= |b.dep| && b.local <= c.local && b.adds <= c.adds
    ensures forall h :: h in vs ==> Settled(c.known, c.local, vs[h])
  {
    CascadeOn(a, b, c, initial, arrived, todo, todo');
    NoMoreDeps(b, c, initial, arrived, todo');
    forall h | h in vs ensures Settled(c.known, c.local, vs[h]) {
      LaterSettled(b.known, b.local, c.known, c.local, vs[h]);
    }
  }

  lemma Fewer(rest: Known, h: Hash)
    requires h in rest
    ensures rest.Values <= (rest - {h}).Values + {rest[h]}
  {
    forall v | v in rest.Values ensures v in (rest - {h}).Values + {rest[h]} {
      var k :| k in rest && rest[k] == v;
      assert k != h ==> k in rest - {h};
    }
  }

  /** Of the transactions `vs`, those in `rest` are still to be tried. */
  ghost predicate Trying(b: Buffer, c: Buffer, initial: set<Hash>, arrived: set<Tx>, vs: Known, rest: Known,
      todo: set<Tx>)
  {
    && Cascade(b, c, initial, arrived, todo + rest.Values)
    && forall h :: h in vs ==> Settled(c.known, c.local, vs[h]) && vs[h] in arrived
  }

  lemma TryNext(b: Buffer, c: Buffer, initial: set<Hash>, arrived: set<Tx>, vs: Known, rest: Known, h: Hash,
      todo: set<Tx>)
    requires Trying(b, c, initial, arrived, vs, rest, todo) && h in rest && h in vs && rest[h] == vs[h]
    ensures Sound(c, initial, arrived) && Todo(c.known, c.local, todo + (rest - {h}).Values + {vs[h]})
    ensures Settled(c.known, c.local, vs[h]) && vs[h] in arrived
  {
    hide Sound, Todo, Settled, Later;
    Fewer(rest, h);
    WeakerTodo(b, c, initial, arrived, todo + rest.Values, todo + (rest - {h}).Values + {vs[h]});
  }

  lemma TriedOne(a: Buffer, b: Buffer, c: Buffer, initial: set<Hash>, arrived: set<Tx>, vs: Known, rest: Known,
      h: Hash, todo: set<Tx>)
    requires Trying(a, b, initial, arrived, vs, rest, todo) && h in rest
    requires Cascade(b, c, initial, arrived, todo + (rest - {h}).Values)
    ensures Trying(a, c, initial, arrived, vs, rest - {h}, todo) && |c.dep| <= |b.dep| && b.local <= c.local
      && b.adds <= c.adds
  {
    hide Cascade, Settled;
    StillSettled(a, b, c, vs, initial, arrived, todo + rest.Values, todo + (rest - {h}).Values);
  }

  lemma TriedAll(b: Buffer, c: Buffer, initial: set<Hash>, arrived: set<Tx>, vs: Known, todo: set<Tx>)
    requires Trying(b, c, initial, arrived, vs, map[], todo)
    ensures Cascade(b, c, initial, arrived, todo)
  {
    hide Cascade;
    var none: Known := map[];
    assert todo + none.Values == todo;
  }

  /** A parent with a dependency entry is missing, so the transaction is not ready. */
  lemma StillMissing(b: Buffer, initial: set<Hash>, arrived: set<Tx>, tx: Tx, p: Hash, todo: set<Tx>)
    requires Sound(b, initial, arrived) && p in tx.parents && p in b.dep && Todo(b.known, b.local, todo + {tx})
    ensures Cascade(b, b, initial, arrived, todo)
  {
    assert p !in b.local;
    assert !AllLocal(tx, b.local);
  }

  lemma BufferedNotLocal(b: Buffer)
    requires DepsOk(b.dep, b.known, b.local)
    ensures forall h :: h in b.known ==> b.known[h].hash == h && h !in b.local
  {
    forall h | h in b.known ensures b.known[h].hash == h && h !in b.local {
      assert Waiting(b.dep, b.local, h, b.known[h]);
    }
  }

  /** Two buffers that started alike and saw the same arrivals, in whatever order, hold the same. */
  lemma SameArrivals(initial: set<Hash>, arrived: set<Tx>, a: Buffer, b: Buffer)
    requires Sound(a, initial, arrived) && Todo(a.known, a.local, {})
    requires Sound(b, initial, arrived) && Todo(b.known, b.local, {})
    ensures a.local == b.local && a.known == b.known
  {
    hide LogOk, Todo, DepsOk, SelfOk, Complete;
    LocalIsLeast(initial, arrived, a.adds, a.known, a.local, b.local);
    LocalIsLeast(initial, arrived, b.adds, b.known, b.local, a.local);
    BufferedNotLocal(a);
    BufferedNotLocal(b);
    assert forall h :: h in a.known ==> a.known[h] in arrived && h in b.known && b.known[h] == a.known[h];
    assert forall h :: h in b.known ==> b.known[h] in arrived && h in a.known;
  }

  class TxBuffer {
    var dependency: Deps
    var known: Known
    var local: set<Hash>  // what pool and ledger hold
    var adds: seq<Tx>  // the calls that hand a transaction to the pool
    ghost var arrived: set<Tx>
    ghost const initial: set<Hash>

    ghost function State(): Buffer
      reads this
    {
      Buffer(dependency, known, local, adds)
    }

    /** No buffered transaction has all its parents local. */
    ghost predicate Valid()
      reads this
    {
      Sound(State(), initial, arrived) && Todo(known, local, {})
    }

    constructor (stored: set<Hash>)
      ensures Valid() && local == initial == stored && arrived == {}
    {
      dependency, known, local, adds := map[], map[], stored, [];
      arrived, initial := {}, stored;
    }

    method UpdateDependencyMap(parent: Hash, tx: Tx)
      modifies this`dependency
      ensures Registered(old(dependency), dependency, tx, {parent})
    {
      var inner := if parent in dependency then dependency[parent] else map[tx.hash := tx];
      dependency := dependency[parent := inner[tx.hash := tx]];
    }

    /** Puts `tx` under every missing parent, and under itself if there is one. */
    method BuildDependencies(tx: Tx) returns (allFetched: bool)
      modifies this`dependency
      ensures allFetched <==> Missing(tx, local) == {}
      ensures allFetched ==> dependency == old(dependency)
      ensures !allFetched ==> Registered(old(dependency), dependency, tx, Missing(tx, local) + {tx.hash})
    {
      allFetched := true;
      var i := 0;
      ghost var missing: set<Hash> := {};
      while i < |tx.parents|
        invariant 0 <= i <= |tx.parents|
        invariant missing == set p | p in tx.parents[..i] && p !in local
        invariant allFetched <==> missing == {}
        invariant allFetched ==> dependency == old(dependency)
        invariant Registered(old(dependency), dependency, tx, missing)
      {
        var parent := tx.parents[i];
        assert tx.parents[..i + 1] == tx.parents[..i] + [parent];
        if parent !in local {
          allFetched := false;
          ghost var dep := dependency;
          UpdateDependencyMap(parent, tx);
          RegisteredBoth(old(dependency), dep, dependency, tx, missing, parent);
          missing := missing + {parent};
        }
        i := i + 1;
      }
      assert tx.parents[..i] == tx.parents;
      assert missing == Missing(tx, local);
      if !allFetched {
        ghost var dep := dependency;
        UpdateDependencyMap(tx.hash, tx);
        RegisteredBoth(old(dependency), dep, dependency, tx, missing, tx.hash);
      }
    }

    /** Takes an arriving transaction; one that is known already is ignored. */
    method HandleTx(tx: Tx)
      requires Valid() && (tx.hash in known ==> known[tx.hash] == tx)
      modifies this
      ensures Valid() && arrived == old(arrived) + {tx}
      ensures tx.hash in local || (tx.hash in known && known[tx.hash] == tx)
      ensures old(local) <= local && old(adds) <= adds
      ensures tx.hash in old(known) || tx.hash in old(local) ==> State() == old(State())
      ensures tx.hash !in old(known) && tx.hash !in old(local) ==>
        if exists p :: p in tx.parents && p !in old(local)
        then known == old(known)[tx.hash := tx] && local == old(local) && adds == old(adds)
        else old(adds) + [tx] <= adds && (tx.hash !in old(dependency) ==>
          known == old(known) && local == old(local) + {tx.hash} && adds == old(adds) + [tx])
    {
      hide DepsOk, SelfOk, LogOk, ArrivedOk, Todo, Later, Registered, AllLocal, Missing;
      ghost var b := State();
      ArrivedMore(arrived, adds, known, local, tx);
      if tx.hash in known || tx.hash in local {
        arrived := arrived + {tx};
        return;
      }
      ghost var before := arrived;
      arrived := arrived + {tx};
      known := known[tx.hash := tx];
      var allFetched := BuildDependencies(tx);
      MissingIs(tx, local);
      if allFetched {
        assert known - {tx.hash} == b.known;
        FetchedIsReleasable(b, initial, before, tx);
        NiceTx(tx, {});
        assert b.local <= local by {
          NoMoreDeps(b.(known := b.known[tx.hash := tx]), State(), initial, arrived, {});
        }
      } else {
        StartsWaiting(b.dep, dependency, b.known, local, tx);
      }
    }

    /** All parents are local: out of the buffer, into the pool. */
    method NiceTx(tx: Tx, ghost todo: set<Tx>)
      requires Releasable(State(), initial, arrived, tx) && Todo(known, local, todo + {tx})
      modifies this`dependency, this`known, this`local, this`adds
      ensures Cascade(old(State()), State(), initial, arrived, todo) && tx.hash in local
      ensures old(adds) + [tx] <= adds && (tx.hash !in old(dependency) ==> State() == Release(old(State()), tx))
      decreases |dependency|, 1
    {
      hide DepsOk, SelfOk, LogOk, ArrivedOk, AllLocal, Todo, Cascade;
      ReleaseCascades(State(), initial, arrived, tx, todo);
      ghost var b := State();
      known := known - {tx.hash};
      Resolve(tx, b, todo);
    }

    /** Adds `tx` to the pool and tries everything that waited for it. */
    method Resolve(tx: Tx, ghost b: Buffer, ghost todo: set<Tx>)
      requires DepsOk(b.dep, b.known, b.local) && ArrivedOk(arrived, b.adds, b.known, b.local)
      requires State() == b.(known := b.known - {tx.hash})
      requires Cascade(b, Release(b, tx), initial, arrived,
        if tx.hash in b.dep then todo + (b.dep[tx.hash] - {tx.hash}).Values else todo)
      modifies this`dependency, this`known, this`local, this`adds
      ensures Cascade(b, State(), initial, arrived, todo) && tx.hash in local
      ensures b.adds + [tx] <= adds && (tx.hash !in b.dep ==> State() == Release(b, tx))
      decreases |dependency|, 0
    {
      hide Cascade, DepsOk, ArrivedOk, Settled, Sound, Todo;
      var present := tx.hash in dependency;
      var vs := if present then dependency[tx.hash] else map[];
      local, adds := local + {tx.hash}, adds + [tx];
      dependency := dependency - {tx.hash};
      if !present {
        return;
      }
      SmallerDeps(b.dep, tx.hash);
      ghost var r := State();
      AllSettled(b, r, initial, arrived, tx.hash, todo + (vs - {tx.hash}).Values);
      assert Trying(b, r, initial, arrived, vs, vs - {tx.hash}, todo);
      TryWaiters(vs, tx.hash, todo, b);
      NoMoreDeps(b, State(), initial, arrived, todo);
    }

    /** Tries the transactions of a dependency entry, but for the one the entry is named after. */
    method TryWaiters(vs: Known, self: Hash, ghost todo: set<Tx>, ghost b: Buffer)
      requires Trying(b, State(), initial, arrived, vs, vs - {self}, todo) && self in local
      modifies this`dependency, this`known, this`local, this`adds
      ensures Cascade(b, State(), initial, arrived, todo) && self in local && old(adds) <= adds
      decreases |dependency|, 4
    {
      hide Trying, Cascade;
      ghost var size := |dependency|;
      var left := vs.Keys;
      ghost var rest := vs - {self};
      while left != {}
        invariant left <= vs.Keys && rest == map h | h in left && h != self :: vs[h]
        invariant Trying(b, State(), initial, arrived, vs, rest, todo) && self in local && |dependency| <= size
        invariant old(adds) <= adds
        decreases |left|
      {
        var h :| h in left;
        left := left - {h};
        if h != self {
          TryWaiter(vs, h, rest, todo, b);
          rest := rest - {h};
        }
      }
      assert rest == map[];
      TriedAll(b, State(), initial, arrived, vs, todo);
    }

    method TryWaiter(vs: Known, h: Hash, ghost rest: Known, ghost todo: set<Tx>, ghost b: Buffer)
      requires h in rest && h in vs && rest[h] == vs[h] && Trying(b, State(), initial, arrived, vs, rest, todo)
      modifies this`dependency, this`known, this`local, this`adds
      ensures Trying(b, State(), initial, arrived, vs, rest - {h}, todo)
      ensures |dependency| <= |old(dependency)| && old(local) <= local && old(adds) <= adds
      decreases |dependency|, 3
    {
      hide Trying, Cascade, Sound, Todo, Settled;
      ghost var before := State();
      TryNext(b, before, initial, arrived, vs, rest, h, todo);
      TryResolve(vs[h], todo + (rest - {h}).Values);
      TriedOne(b, before, State(), initial, arrived, vs, rest, h, todo);
    }

    /** Releases a transaction, unless one of its parents still has a dependency entry. */
    method TryResolve(tx: Tx, ghost todo: set<Tx>)
      requires Sound(State(), initial, arrived) && Settled(known, local, tx) && tx in arrived
      requires Todo(known, local, todo + {tx})
      modifies this`dependency, this`known, this`local, this`adds
      ensures Cascade(old(State()), State(), initial, arrived, todo)
      decreases |dependency|, 2
    {
      hide Cascade, Release, Later, LogOk, ArrivedOk, Todo;
      var i := 0;
      while i < |tx.parents|
        invariant 0 <= i <= |tx.parents|
        invariant forall j :: 0 <= j < i ==> tx.parents[j] !in dependency
      {
        if tx.parents[i] in dependency {
          StillMissing(State(), initial, arrived, tx, tx.parents[i], todo);
          return;
        }
        i := i + 1;
      }
      NothingMissing(dependency, known, local, tx);
      NiceTx(tx, todo);
    }
  }
}
