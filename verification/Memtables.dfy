/** Memtables as sorted runs. The skip list that stores them is the subject of SkipLists. */
module Memtables {
  import opened InternalKeys

  /** `e` at its place in the sorted run. */
  function InsertEntry(es: seq<Entry>, e: Entry): seq<Entry> {
    if es == [] || !Less(e.Key(), es[|es| - 1].Key()) then es + [e]
    else InsertEntry(es[..|es| - 1], e) + [es[|es| - 1]]
  }

  function InsertBatch(es: seq<Entry>, batch: seq<Entry>): seq<Entry> {
    if batch == [] then es
    else InsertEntry(InsertBatch(es, batch[..|batch| - 1]), batch[|batch| - 1])
  }

  lemma {:induction false} InsertEntryMembers(es: seq<Entry>, e: Entry)
    ensures forall x :: x in InsertEntry(es, e) <==> x in es || x == e
    decreases |es|
  {
    if !(es == [] || !Less(e.Key(), es[|es| - 1].Key())) {
      InsertEntryMembers(es[..|es| - 1], e);
      assert es == es[..|es| - 1] + [es[|es| - 1]];
    }
  }

  lemma {:induction false} InsertEntrySorted(es: seq<Entry>, e: Entry)
    requires Sorted(es) && forall x :: x in es ==> x.seqno != e.seqno
    ensures Sorted(InsertEntry(es, e))
    decreases |es|
  {
    if es != [] {
      var init, last := es[..|es| - 1], es[|es| - 1];
      assert last in es;
      if Less(e.Key(), last.Key()) {
        InsertEntrySorted(init, e);
        InsertEntryMembers(init, e);
        var r := InsertEntry(init, e);
        forall i | 0 <= i < |r| ensures Less(r[i].Key(), last.Key()) {
          assert r[i] in r;
          if r[i] != e {
            var k :| 0 <= k < |init| && init[k] == r[i];
            assert es[k] == r[i];
          }
        }
      } else {
        forall i | 0 <= i < |es| ensures Less(es[i].Key(), e.Key()) {
          if i < |es| - 1 {
            assert Less(es[i].Key(), last.Key());
          }
        }
      }
    }
  }

  /** Sequence numbers rise from one entry to the next: the order in which writes happen. */
  ghost predicate Ascending(es: seq<Entry>) {
    forall i, j :: 0 <= i < j < |es| ==> es[i].seqno < es[j].seqno
  }

  ghost predicate Older(A: set<Entry>, B: set<Entry>) {
    forall a, b :: a in A && b in B ==> a.seqno < b.seqno
  }

  lemma {:induction false} InsertBatchMembers(es: seq<Entry>, batch: seq<Entry>)
    ensures forall x :: x in InsertBatch(es, batch) <==> x in es || x in batch
    decreases |batch|
  {
    if batch != [] {
      var init, last := batch[..|batch| - 1], batch[|batch| - 1];
      assert batch == init + [last];
      InsertBatchMembers(es, init);
      InsertEntryMembers(InsertBatch(es, init), last);
    }
  }

  lemma LastIsNewest(es: seq<Entry>, batch: seq<Entry>, x: Entry)
    requires Ascending(batch) && Older(Elems(es), Elems(batch)) && batch != []
    requires x in es || x in batch[..|batch| - 1]
    ensures x.seqno != batch[|batch| - 1].seqno
  {
    var last := batch[|batch| - 1];
    if x in es {
      assert x in Elems(es) && last in Elems(batch);
    } else {
      var i :| 0 <= i < |batch| - 1 && batch[..|batch| - 1][i] == x;
      assert batch[i] == x;
    }
  }

  lemma {:induction false} InsertBatchSorted(es: seq<Entry>, batch: seq<Entry>)
    requires Sorted(es) && Ascending(batch) && Older(Elems(es), Elems(batch))
    ensures Sorted(InsertBatch(es, batch))
    decreases |batch|
  {
    if batch != [] {
      var init, last := batch[..|batch| - 1], batch[|batch| - 1];
      assert Older(Elems(es), Elems(init)) by {
        forall b | b in Elems(init) ensures b in Elems(batch) {
        }
      }
      InsertBatchSorted(es, init);
      InsertBatchMembers(es, init);
      forall x | x in InsertBatch(es, init) ensures x.seqno != last.seqno {
        LastIsNewest(es, batch, x);
      }
      InsertEntrySorted(InsertBatch(es, init), last);
    }
  }

  lemma InsertBatchElems(es: seq<Entry>, batch: seq<Entry>)
    ensures Elems(InsertBatch(es, batch)) == Elems(es) + Elems(batch)
  {
    InsertBatchMembers(es, batch);
  }
}
