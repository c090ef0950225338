/**
  What the flush-commit machine's items stand for: the chunks of the cache that wait for a flush, are
  being flushed or wait for a commit.  The steps of the machine are steps of the chunk map, and the
  byte counts it works with are the cache's counters.
 */
module FcsmCache {
  import opened Chunks
  import opened Counters
  import opened Cache
  import opened Fcsm
  import FcsmCommit

  /** Each chunk has a number for the time it is dirty, in flight or commit pending. */
  function ItemOf(c: Chunk, ids: nat -> nat): Item {
    Item(ids(c.offset), c.offset, c.length)
  }

  datatype Kind = Waiting | Flying | Pending

  predicate Is(c: Chunk, kind: Kind) {
    match kind
    case Waiting => c.NeedsFlush()
    case Flying => c.mb.flushing
    case Pending => c.mb.commitPending
  }

  /** The items of one kind among the chunks from index i on, in the order of the map. */
  function Items(m: seq<Chunk>, i: nat, kind: Kind, ids: nat -> nat): seq<Item>
    requires i <= |m|
    decreases |m| - i
  {
    if i == |m| then []
    else (if Is(m[i], kind) then [ItemOf(m[i], ids)] else []) + Items(m, i + 1, kind, ids)
  }

  /** The machine's items are those of the map; what is in flight may be in any order. */
  ghost predicate Stands(f: Fc, m: seq<Chunk>, ids: nat -> nat) {
    && f.dirty == Items(m, 0, Waiting, ids)
    && multiset(f.inflight) == multiset(Items(m, 0, Flying, ids))
    && f.pending == Items(m, 0, Pending, ids)
  }

  // ---------------------------------------------------------------- counters

  lemma {:induction false} ItemsCount(m: seq<Chunk>, i: nat, ids: nat -> nat)
    requires i <= |m|
    ensures Bytes(Items(m, i, Waiting, ids)) == ToFlush(m[i..])
    ensures Bytes(Items(m, i, Flying, ids)) == Tally(m[i..]).flushing
    ensures Bytes(Items(m, i, Pending, ids)) == Tally(m[i..]).commitPending
    decreases |m| - i
  {
    if i < |m| {
      ItemsCount(m, i + 1, ids);
      assert m[i..][1..] == m[i + 1..];
      forall kind: Kind ensures Bytes(Items(m, i, kind, ids))
                                == (if Is(m[i], kind) then m[i].length else 0) + Bytes(Items(m, i + 1, kind, ids))
      {
        ConsBytes(ItemOf(m[i], ids), Items(m, i + 1, kind, ids));
      }
    }
  }

  lemma ConsBytes(it: Item, items: seq<Item>)
    ensures Bytes([it] + items) == it.length + Bytes(items) && [] + items == items
  {
    assert ([it] + items)[1..] == items;
  }

  lemma TakeOut(items: seq<Item>, j: nat)
    requires j < |items|
    ensures var rest := items[..j] + items[j + 1..];
            && multiset(items) == multiset(rest) + multiset{items[j]}
            && Bytes(items) == Bytes(rest) + items[j].length
  {
    hide Bytes;
    assert items == items[..j] + [items[j]] + items[j + 1..];
    CutBytes(items, j, j + 1);
    assert items[j..j + 1] == [items[j]] == [items[j]] + [];
    assert Bytes([items[j]] + []) == items[j].length by { OneItem(items[j]); }
  }

  lemma OneItem(it: Item)
    ensures Bytes([it] + []) == it.length
  {
    ConsBytes(it, []);
  }

  lemma CancelItem(x: multiset<Item>, y: multiset<Item>, it: Item)
    requires x + multiset{it} == y + multiset{it}
    ensures x == y
  {
    assert x == (x + multiset{it}) - multiset{it};
    assert y == (y + multiset{it}) - multiset{it};
  }

  lemma {:induction false} SameBagSameBytes(a: seq<Item>, b: seq<Item>)
    requires multiset(a) == multiset(b)
    ensures Bytes(a) == Bytes(b)
    decreases |a|
  {
    hide Bytes;
    assert |a| == |multiset(a)| == |b|;
    if a != [] {
      assert a[0] in multiset(b);
      var j :| 0 <= j < |b| && b[j] == a[0];
      TakeOut(a, 0);
      TakeOut(b, j);
      CancelItem(multiset(a[..0] + a[1..]), multiset(b[..j] + b[j + 1..]), a[0]);
      SameBagSameBytes(a[..0] + a[1..], b[..j] + b[j + 1..]);
    } else {
      assert a == b;
    }
  }

  /** The byte counts the machine goes by are the counters of the cache. */
  lemma CountersAgree(f: Fc, m: seq<Chunk>, ids: nat -> nat)
    requires Stands(f, m, ids)
    ensures Bytes(f.dirty) == ToFlush(m)
    ensures Bytes(f.inflight) == Tally(m).flushing
    ensures Bytes(f.pending) == Tally(m).commitPending
  {
    ItemsCount(m, 0, ids);
    assert m[0..] == m;
    SameBagSameBytes(f.inflight, Items(m, 0, Flying, ids));
  }

  /** So get_bytes_to_flush() gives what ensure_flush() means to flush, if no buffer is half written or outside the map. */
  lemma GoalFromCounters(f: Fc, m: seq<Chunk>, ids: nat -> nat)
    requires Stands(f, m, ids) && JustWritten(m) == 0 && Kept(f)
    ensures var s := TallyDetached([]).Plus(Tally(m));
            && BytesToFlush(s) == Bytes(f.dirty)
            && f.flushing - f.flushed == s.flushing
            && (!f.stable ==> f.flushed - f.committed == s.commitPending)
  {
    CountersAgree(f, m, ids);
    BytesToFlushExact(m, []);
  }

  // ---------------------------------------------------------------- steps

  lemma {:induction false} ItemsSame(m: seq<Chunk>, m': seq<Chunk>, i: nat, kind: Kind, ids: nat -> nat, ids': nat -> nat)
    requires i <= |m| == |m'|
    requires forall k :: i <= k < |m| ==>
               (Is(m'[k], kind) == Is(m[k], kind) && (Is(m[k], kind) ==> ItemOf(m'[k], ids') == ItemOf(m[k], ids)))
    ensures Items(m', i, kind, ids') == Items(m, i, kind, ids)
    decreases |m| - i
  {
    if i < |m| { ItemsSame(m, m', i + 1, kind, ids, ids'); }
  }

  lemma {:induction false} ItemsAfter(m: seq<Chunk>, i: nat, kind: Kind, ids: nat -> nat, o: nat)
    requires Wf(m) && i <= |m| && (i < |m| ==> o <= m[i].offset)
    ensures forall k :: 0 <= k < |Items(m, i, kind, ids)| ==> o <= Items(m, i, kind, ids)[k].offset
    decreases |m| - i
  {
    if i < |m| { ItemsAfter(m, i + 1, kind, ids, o); }
  }

  lemma {:induction false} ItemsInOrder(m: seq<Chunk>, i: nat, kind: Kind, ids: nat -> nat)
    requires Wf(m) && i <= |m|
    ensures FcsmCommit.InOrder(Items(m, i, kind, ids))
    decreases |m| - i
  {
    if i < |m| {
      ItemsInOrder(m, i + 1, kind, ids);
      ItemsAfter(m, i + 1, kind, ids, m[i].End());
      FcsmCommit.ConsInOrder(ItemOf(m[i], ids), Items(m, i + 1, kind, ids));
    }
  }

  /** The dirty items are in the order of the map and do not overlap. */
  lemma StandsInOrder(f: Fc, m: seq<Chunk>, ids: nat -> nat)
    requires Stands(f, m, ids) && Wf(m)
    ensures FcsmCommit.InOrder(f.dirty)
  {
    ItemsInOrder(m, 0, Waiting, ids);
  }

  lemma ItemsStep(m: seq<Chunk>, i: nat, kind: Kind, ids: nat -> nat)
    requires i < |m|
    ensures Items(m, i, kind, ids)
            == if Is(m[i], kind) then [ItemOf(m[i], ids)] + Items(m, i + 1, kind, ids) else Items(m, i + 1, kind, ids)
  {
  }

  lemma InsertPast(x: Item, rest: seq<Item>, it: Item)
    requires x.offset < it.offset
    ensures Insert([x] + rest, it) == [x] + Insert(rest, it)
  {
    assert ([x] + rest)[1..] == rest;
  }

  lemma InsertFront(rest: seq<Item>, it: Item)
    requires rest == [] || it.offset <= rest[0].offset
    ensures Insert(rest, it) == [it] + rest
  {
  }

  /** A chunk that comes to be of a kind takes its place in the order of the map. */
  lemma {:induction false} ItemsInsert(m: seq<Chunk>, j: nat, d: Chunk, i: nat, kind: Kind, ids: nat -> nat, ids': nat -> nat)
    requires Wf(m) && i <= j < |m| && d.offset == m[j].offset && d.length == m[j].length
    requires !Is(m[j], kind) && Is(d, kind) && forall k :: k != d.offset ==> ids'(k) == ids(k)
    ensures Items(m[j := d], i, kind, ids') == Insert(Items(m, i, kind, ids), ItemOf(d, ids'))
    decreases j - i
  {
    hide Items, Insert, Is;
    var it, m' := ItemOf(d, ids'), m[j := d];
    ItemsStep(m, i, kind, ids);
    ItemsStep(m', i, kind, ids');
    var rest := Items(m, i + 1, kind, ids);
    if i == j {
      ItemsSame(m, m', i + 1, kind, ids, ids') by { KeysDiffer(m, j); }
      ItemsAfter(m, i + 1, kind, ids, d.offset);
      InsertFront(rest, it);
    } else {
      ItemsInsert(m, j, d, i + 1, kind, ids, ids');
      KeysDiffer(m, j);
      if Is(m[i], kind) {
        InsertPast(ItemOf(m[i], ids), rest, it);
      }
    }
  }

  /** A chunk that ceases to be of a kind takes its item along. */
  lemma {:induction false} ItemsRemove(m: seq<Chunk>, j: nat, d: Chunk, i: nat, kind: Kind, ids: nat -> nat)
    requires Wf(m) && i <= j < |m| && d.offset == m[j].offset && d.length == m[j].length
    requires Is(m[j], kind) && !Is(d, kind)
    ensures multiset(Items(m, i, kind, ids)) == multiset(Items(m[j := d], i, kind, ids)) + multiset{ItemOf(m[j], ids)}
    decreases j - i
  {
    hide Items, Is;
    var m', it := m[j := d], ItemOf(m[j], ids);
    ItemsStep(m, i, kind, ids);
    ItemsStep(m', i, kind, ids);
    if i == j {
      ItemsSame(m, m', i + 1, kind, ids, ids);
      BagCons(it, Items(m, i + 1, kind, ids));
    } else {
      ItemsRemove(m, j, d, i + 1, kind, ids);
      if Is(m[i], kind) {
        var x := ItemOf(m[i], ids);
        BagCons(x, Items(m, i + 1, kind, ids));
        BagCons(x, Items(m', i + 1, kind, ids));
      }
    }
  }

  lemma BagCons(x: Item, rest: seq<Item>)
    ensures multiset([x] + rest) == multiset(rest) + multiset{x}
  {
  }

  function Renumber(ids: nat -> nat, key: nat, id: nat): nat -> nat {
    (k: nat) => (if k == key then id else ids(k)) as nat
  }

  /** A write into a clean chunk is the machine's step that makes an item dirty. */
  lemma WriteRefines(f: Fc, m: seq<Chunk>, ids: nat -> nat, j: nat, d: Chunk, id: nat)
    requires Stands(f, m, ids) && Wf(m) && j < |m|
    requires d.offset == m[j].offset && d.length == m[j].length
    requires !m[j].mb.dirty && !m[j].mb.flushing && !m[j].mb.commitPending
    requires d.mb.dirty && !d.mb.flushing && !d.mb.commitPending
    ensures Stands(Dirtied(f, Item(id, d.offset, d.length)), m[j := d], Renumber(ids, d.offset, id))
  {
    var ids' := Renumber(ids, d.offset, id);
    KeysDiffer(m, j);
    ItemsInsert(m, j, d, 0, Waiting, ids, ids');
    ItemsSame(m, m[j := d], 0, Flying, ids, ids');
    ItemsSame(m, m[j := d], 0, Pending, ids, ids');
  }

  lemma KeysDiffer(m: seq<Chunk>, j: nat)
    requires Wf(m) && j < |m|
    ensures forall k :: 0 <= k < |m| && k != j ==> m[k].offset != m[j].offset
  {
  }

  /** sync_membufs() on everything that waits: the chunk after it. */
  function Sent(c: Chunk): Chunk {
    if c.NeedsFlush() then c.(mb := c.mb.(flushing := true, locked := true, inuse := c.mb.inuse + 1)) else c
  }

  lemma {:induction false} ItemsSent(m: seq<Chunk>, m': seq<Chunk>, i: nat, ids: nat -> nat)
    requires i <= |m| == |m'| && forall k :: 0 <= k < |m| ==> m'[k] == Sent(m[k])
    ensures Items(m', i, Waiting, ids) == []
    ensures multiset(Items(m', i, Flying, ids)) == multiset(Items(m, i, Flying, ids)) + multiset(Items(m, i, Waiting, ids))
    ensures Items(m', i, Pending, ids) == Items(m, i, Pending, ids)
    decreases |m| - i
  {
    if i < |m| { ItemsSent(m, m', i + 1, ids); }
  }

  /** A flush with stable writes is the machine's flush of all that is dirty. */
  lemma FlushRefines(f: Fc, m: seq<Chunk>, m': seq<Chunk>, ids: nat -> nat)
    requires Stands(f, m, ids) && f.stable
    requires |m'| == |m| && forall k :: 0 <= k < |m| ==> m'[k] == Sent(m[k])
    ensures Stands(Sync(f, |f.dirty|), m', ids)
  {
    ItemsSent(m, m', 0, ids);
    assert f.dirty[..|f.dirty|] == f.dirty && f.dirty[|f.dirty|..] == [];
  }

  lemma CompletionFlight(f: Fc, m: seq<Chunk>, ids: nat -> nat, j: nat, d: Chunk, i: nat)
    requires Stands(f, m, ids) && Wf(m) && j < |m| && i < |f.inflight| && f.inflight[i] == ItemOf(m[j], ids)
    requires d.offset == m[j].offset && d.length == m[j].length && m[j].mb.flushing && !d.mb.flushing
    ensures multiset(f.inflight[..i] + f.inflight[i + 1..]) == multiset(Items(m[j := d], 0, Flying, ids))
  {
    hide Items;
    ItemsRemove(m, j, d, 0, Flying, ids);
    TakeOut(f.inflight, i);
    CancelItem(multiset(f.inflight[..i] + f.inflight[i + 1..]), multiset(Items(m[j := d], 0, Flying, ids)), f.inflight[i]);
  }

  lemma CompletionPending(f: Fc, m: seq<Chunk>, ids: nat -> nat, j: nat, d: Chunk)
    requires Stands(f, m, ids) && Wf(m) && j < |m| && !f.stable
    requires d.offset == m[j].offset && d.length == m[j].length && !m[j].mb.commitPending && d.mb.commitPending
    ensures InsertAll(f.pending, [ItemOf(m[j], ids)]) == Items(m[j := d], 0, Pending, ids)
  {
    var it := ItemOf(m[j], ids);
    ItemsInsert(m, j, d, 0, Pending, ids, ids);
    assert [it][1..] == [];
    assert InsertAll(f.pending, [it]) == InsertAll(Insert(f.pending, it), []) == Insert(f.pending, it);
  }

  /** The end of a backend write of one chunk is the machine's completion of its item. */
  lemma CompletionRefines(f: Fc, m: seq<Chunk>, ids: nat -> nat, j: nat, d: Chunk, i: nat)
    requires Stands(f, m, ids) && Wf(m) && j < |m| && i < |f.inflight| && f.inflight[i] == ItemOf(m[j], ids)
    requires d.offset == m[j].offset && d.length == m[j].length
    requires m[j].mb.flushing && m[j].mb.dirty && !m[j].mb.commitPending
    requires !d.mb.flushing && !d.mb.dirty && (d.mb.commitPending <==> !f.stable)
    ensures Stands(Complete(f, i, i + 1), m[j := d], ids)
  {
    hide Items, InsertAll, Bytes;
    CompletionFlight(f, m, ids, j, d, i);
    ItemsSame(m, m[j := d], 0, Waiting, ids, ids);
    assert f.inflight[i..i + 1] == [ItemOf(m[j], ids)];
    if f.stable {
      ItemsSame(m, m[j := d], 0, Pending, ids, ids);
    } else {
      CompletionPending(f, m, ids, j, d);
    }
  }
}
