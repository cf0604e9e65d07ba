/** Account flows as objects: balance states and a nonce-ordered list for every sender. */
module FlowObjects {
  import opened Types
  import opened Ledgers
  import opened Pools
  import opened TxLists

  class AccountFlow {
    var balances: map<Token, BalanceState>
    const txlist: TxList

    ghost function View(): Flow
      reads this, txlist
    {
      Flow(balances, txlist.txflow)
    }

    constructor ()
      ensures fresh(txlist) && txlist.Valid() && View() == Flow(map[], map[])
    {
      balances := map[];
      txlist := new TxList();
    }

    /**
     * Fails on a repeated nonce, on a transfer that the balance does not cover, and on one without a
     * balance state, which is put into the list all the same.
     */
    method Add(tx: Tx) returns (ok: bool)
      requires txlist.Valid()
      modifies this, txlist
      ensures txlist.Valid() && View() == FlowPut(old(View()), tx)
      ensures ok <==> tx.nonce !in old(txlist.txflow) && (tx.kind == Normal ==>
        tx.token in old(balances) && old(balances)[tx.token].spent + tx.value <= old(balances)[tx.token].origin)
      ensures ok ==> txlist.txflow == old(txlist.txflow)[tx.nonce := tx]
      ensures ok && tx.kind == Normal ==>
        var st := old(balances)[tx.token];
        balances == old(balances)[tx.token := BalanceState(st.spent + tx.value, st.origin)]
      ensures !(ok && tx.kind == Normal) ==> balances == old(balances)
      ensures !ok && (tx.nonce in old(txlist.txflow) || tx.token in old(balances)) ==>
        txlist.txflow == old(txlist.txflow)
    {
      if tx.nonce in txlist.txflow {
        return false;
      }
      ok := true;
      if tx.kind == Normal {
        if tx.token !in balances {
          ok := false;
        } else {
          var st := balances[tx.token];
          if st.spent + tx.value > st.origin {
            return false;
          }
          balances := balances[tx.token := st.(spent := st.spent + tx.value)];
        }
      }
      txlist.Put(tx);
    }
  }

  class AccountFlows {
    var afs: map<Address, AccountFlow>
    ghost var view: map<Address, Flow>
    ghost var cells: set<AccountFlow>
    ghost var lists: set<TxList>

    ghost predicate FlowOk(a: Address)
      reads this, cells, lists
    {
      && (a in afs <==> a in view)
      && (a in afs ==> afs[a] in cells && afs[a].txlist in lists && afs[a].txlist.Valid() && view[a] == afs[a].View())
    }

    ghost predicate Apart(a: Address, b: Address)
      reads this
    {
      a in afs && b in afs && a != b ==> afs[a] != afs[b] && afs[a].txlist != afs[b].txlist
    }

    /** Every sender has a flow and a list of its own; `view` is what they hold. */
    ghost predicate Valid()
      reads this, cells, lists
    {
      && (forall a :: FlowOk(a))
      && (forall a, b :: Apart(a, b))
    }

    constructor ()
      ensures Valid() && view == map[] && cells == {} && lists == {}
    {
      afs, view, cells, lists := map[], map[], {}, {};
    }

    method GetTxByNonce(a: Address, nonce: nat) returns (tx: Option<Tx>)
      requires Valid()
      ensures tx == if nonce in FlowIn(view, a).txs then Some(FlowIn(view, a).txs[nonce]) else None
    {
      assert FlowOk(a);
      if a !in afs || nonce !in afs[a].txlist.txflow {
        return None;
      }
      return Some(afs[a].txlist.txflow[nonce]);
    }

    method GetBalanceState(a: Address, t: Token) returns (st: Option<BalanceState>)
      requires Valid()
      ensures st == if t in FlowIn(view, a).balances then Some(FlowIn(view, a).balances[t]) else None
    {
      assert FlowOk(a);
      if a !in afs || t !in afs[a].balances {
        return None;
      }
      return Some(afs[a].balances[t]);
    }

    /** The largest nonce of a sender; finding it sorts the heap in place. */
    method GetLatestNonce(a: Address) returns (ok: bool, latest: nat)
      requires Valid()
      modifies lists
      ensures Valid()
      ensures ok <==> FlowIn(view, a).txs.Keys != {}
      ensures ok ==> latest == MaxOf(FlowIn(view, a).txs.Keys)
    {
      assert FlowOk(a);
      if a !in afs {
        return false, 0;
      }
      ghost var list := afs[a].txlist;
      ok, latest := afs[a].txlist.LatestNonce();
      Untouched(list);
      if ok {
        OneMax(list.txflow.Keys, latest);
      }
    }

    twostate lemma Untouched(list: TxList)
      requires unchanged(this) && unchanged(cells) && old(Valid()) && list in old(lists)
      requires list.Valid() && list.txflow == old(list.txflow)
      requires forall l :: l in old(lists) && l != list ==> unchanged(l)
      ensures Valid()
    {
      forall a ensures FlowOk(a) {
        assert old(FlowOk(a));
      }
      forall a, b ensures Apart(a, b) {
        assert old(Apart(a, b));
      }
    }

    method ResetFlow(a: Address)
      requires Valid()
      modifies this
      ensures Valid() && view == old(view)[a := Flow(map[], map[])] && a in afs
      ensures fresh(cells - old(cells)) && fresh(lists - old(lists))
    {
      var af := new AccountFlow();
      afs, view, cells, lists := afs[a := af], view[a := Flow(map[], map[])], cells + {af}, lists + {af.txlist};
      Extended(a, af);
    }

    /** Makes sure that a sender has a flow. */
    method OpenFlow(a: Address)
      requires Valid()
      modifies this
      ensures Valid() && a in afs && view == old(view)[a := FlowIn(old(view), a)]
      ensures fresh(cells - old(cells)) && fresh(lists - old(lists))
    {
      assert FlowOk(a);
      if a !in afs {
        ResetFlow(a);
      } else {
        assert view == view[a := view[a]];
      }
    }

    twostate lemma Extended(a: Address, new af: AccountFlow)
      requires old(Valid()) && afs == old(afs)[a := af]
      requires cells == old(cells) + {af} && lists == old(lists) + {af.txlist} && view == old(view)[a := af.View()]
      requires af !in old(cells) && af.txlist !in old(lists) && af.txlist.Valid()
      requires unchanged(old(cells)) && unchanged(old(lists))
      ensures Valid()
    {
      forall b ensures FlowOk(b) {
        assert old(FlowOk(b));
      }
      forall b, c ensures Apart(b, c) {
        assert old(Apart(b, c)) && old(FlowOk(b)) && old(FlowOk(c));
      }
    }

    /** Opens the flow of the sender where it is missing. */
    method Add(tx: Tx, dag: Dag)
      requires Valid()
      modifies this, cells, lists
      ensures Valid() && fresh(cells - old(cells)) && fresh(lists - old(lists))
      ensures view == if tx.kind == Archive then old(view)
        else old(view)[tx.sender := FlowAdd(dag.View(), FlowIn(old(view), tx.sender), tx)]
    {
      hide FlowAdd;
      if tx.kind != Archive {
        OpenFlow(tx.sender);
        AddTo(tx, dag);
      }
    }

    /** Opens the balance state of a transfer where it is missing, and adds to the sender's flow. */
    method AddTo(tx: Tx, dag: Dag)
      requires Valid() && tx.kind != Archive && tx.sender in afs
      modifies this`view, cells, lists
      ensures Valid() && view == old(view)[tx.sender := FlowAdd(dag.View(), FlowIn(old(view), tx.sender), tx)]
    {
      assert FlowOk(tx.sender);
      var af := afs[tx.sender];
      ghost var before := af.View();
      if tx.kind == Normal && tx.token !in af.balances {
        var balance := if (tx.sender, tx.token) in dag.balances then dag.balances[(tx.sender, tx.token)] else 0;
        af.balances := af.balances[tx.token := BalanceState(0, balance)];
      }
      assert af.View() == Opened(dag.View(), before, tx);
      var ok := af.Add(tx);
      view := view[tx.sender := af.View()];
      OneFlow(tx.sender);
    }

    twostate lemma OneFlow(a: Address)
      requires unchanged(this`afs) && unchanged(this`cells) && unchanged(this`lists)
      requires old(Valid()) && a in afs && afs[a].txlist.Valid() && view == old(view)[a := afs[a].View()]
      requires forall c :: c in old(cells) && c != afs[a] ==> unchanged(c)
      requires forall l :: l in old(lists) && l != afs[a].txlist ==> unchanged(l)
      ensures Valid()
    {
      forall b ensures FlowOk(b) {
        assert old(FlowOk(b)) && old(Apart(a, b));
      }
      forall b, c ensures Apart(b, c) {
        assert old(Apart(b, c));
      }
    }
  }

  lemma OneMax(s: set<nat>, m: nat)
    requires m in s && forall n :: n in s ==> n <= m
    ensures m == MaxOf(s)
  {
  }
}
