/**
  The map of inodes of an nfs_client: look up under the shared lock, create outside of it, look up
  again under the exclusive lock and only then insert.

  Each method is what one thread does while it holds the lock.  What other threads do in between is
  an input, a list of their critical sections.
 */
module InodeMap {
  import opened Options

  /** What identifies a file: the fileid need not be unique, the filehandle tells them apart. */
  datatype Key = Key(fileid: nat, fh: seq<nat>)

  datatype Inode = Inode(ino: nat, key: Key, lookupcnt: nat, dircachecnt: nat)

  /** A critical section of another thread: a look-up, the end of a creation, a put, a directory cache coming or going. */
  datatype Call = Look(k: Key) | Add(k: Key) | Put(ino: nat, n: nat) | Cache(ino: nat, add: bool)

  /** No file has two inodes, and no inode is in the map twice. */
  ghost predicate Unique(m: seq<Inode>) {
    forall i, j :: 0 <= i < j < |m| ==> m[i].key != m[j].key && m[i].ino != m[j].ino
  }

  /** The counts of an inode are the references that its users and the directory caches hold. */
  ghost predicate Counted(m: seq<Inode>, refs: multiset<nat>, dirRefs: multiset<nat>) {
    forall i :: 0 <= i < |m| ==> m[i].lookupcnt == refs[m[i].ino] && m[i].dircachecnt == dirRefs[m[i].ino]
  }

  /** Whoever holds a reference finds the inode in the map. */
  ghost predicate Alive(m: seq<Inode>, refs: multiset<nat>, dirRefs: multiset<nat>) {
    forall ino :: ino in refs || ino in dirRefs ==> HasIno(m, ino)
  }

  ghost predicate Sound(m: seq<Inode>, refs: multiset<nat>, dirRefs: multiset<nat>, nextIno: nat) {
    && Unique(m) && Counted(m, refs, dirRefs) && Alive(m, refs, dirRefs)
    && (forall i :: 0 <= i < |m| ==> m[i].ino < nextIno)
    && (forall ino :: ino in refs || ino in dirRefs ==> ino < nextIno)
  }

  ghost predicate HasKey(m: seq<Inode>, k: Key) {
    exists i :: 0 <= i < |m| && m[i].key == k
  }

  ghost predicate HasIno(m: seq<Inode>, x: nat) {
    exists i :: 0 <= i < |m| && m[i].ino == x
  }

  /** The file k has the inode ino. */
  ghost predicate Maps(m: seq<Inode>, k: Key, ino: nat) {
    exists i :: 0 <= i < |m| && m[i].key == k && m[i].ino == ino
  }

  /** Whatever is still referenced keeps its inode. */
  ghost predicate KeepsHeld(m: seq<Inode>, m': seq<Inode>, refs: multiset<nat>, dirRefs: multiset<nat>) {
    forall k: Key, x: nat :: (x in refs || x in dirRefs) && Maps(m, k, x) ==> Maps(m', k, x)
  }

  /** An inode that was given out for a file and is still referenced later is the one the file has then. */
  lemma OneInodePerFile(m: seq<Inode>, m': seq<Inode>, refs: multiset<nat>, dirRefs: multiset<nat>, nextIno: nat,
                        k: Key, held: nat, got: nat)
    requires KeepsHeld(m, m', refs, dirRefs) && Sound(m', refs, dirRefs, nextIno)
    requires Maps(m, k, held) && (held in refs || held in dirRefs) && Maps(m', k, got)
    ensures got == held
  {
    assert Maps(m', k, held);
  }

  lemma ChangeKeeps(m: seq<Inode>, m': seq<Inode>)
    requires |m| <= |m'| && forall i :: 0 <= i < |m| ==> m'[i].key == m[i].key && m'[i].ino == m[i].ino
    ensures forall k, x :: Maps(m, k, x) ==> Maps(m', k, x)
  {
    forall k, x | Maps(m, k, x) ensures Maps(m', k, x) {
      var i :| 0 <= i < |m| && m[i].key == k && m[i].ino == x;
      assert m'[i].key == k && m'[i].ino == x;
    }
  }

  lemma EraseKeepsOthers(m: seq<Inode>, i: nat)
    requires i < |m|
    ensures forall k, x :: Maps(m, k, x) && x != m[i].ino ==> Maps(m[..i] + m[i + 1..], k, x)
  {
    var m' := m[..i] + m[i + 1..];
    forall k, x | Maps(m, k, x) && x != m[i].ino ensures Maps(m', k, x) {
      var j :| 0 <= j < |m| && m[j].key == k && m[j].ino == x;
      var j' := if j < i then j else j - 1;
      assert m'[j'].key == k && m'[j'].ino == x;
    }
  }

  lemma IncrefKeeps(m: seq<Inode>, refs: multiset<nat>, dirRefs: multiset<nat>, nextIno: nat, i: nat, n: nat, d: nat)
    requires Sound(m, refs, dirRefs, nextIno) && i < |m|
    ensures var ino := m[i].ino;
            Sound(m[i := m[i].(lookupcnt := n, dircachecnt := d)], refs[ino := n], dirRefs[ino := d], nextIno)
  {
    var ino, m' := m[i].ino, m[i := m[i].(lookupcnt := n, dircachecnt := d)];
    var refs', dirRefs' := refs[ino := n], dirRefs[ino := d];
    forall x | x in refs' || x in dirRefs' ensures HasIno(m', x) {
      var k :| 0 <= k < |m| && m[k].ino == if x == ino then ino else x;
      assert m'[k].ino == m[k].ino;
    }
  }

  lemma InsertKeeps(m: seq<Inode>, refs: multiset<nat>, dirRefs: multiset<nat>, nextIno: nat, k: Key, ino: nat)
    requires Sound(m, refs, dirRefs, nextIno) && !HasKey(m, k) && nextIno <= ino
    ensures Sound(m + [Inode(ino, k, 1, 0)], refs[ino := 1], dirRefs, ino + 1)
  {
    var m', refs' := m + [Inode(ino, k, 1, 0)], refs[ino := 1];
    assert m'[|m|].ino == ino;
    forall x | x in refs' || x in dirRefs ensures HasIno(m', x) {
      if x != ino {
        var j :| 0 <= j < |m| && m[j].ino == x;
        assert m'[j].ino == x;
      }
    }
  }

  lemma EraseKeeps(m: seq<Inode>, refs: multiset<nat>, dirRefs: multiset<nat>, nextIno: nat, i: nat)
    requires Sound(m, refs, dirRefs, nextIno) && i < |m| && m[i].lookupcnt == 0 && m[i].dircachecnt == 0
    ensures Sound(m[..i] + m[i + 1..], refs, dirRefs, nextIno)
  {
    hide HasIno;
    var m' := m[..i] + m[i + 1..];
    forall j | 0 <= j < |m'| ensures m'[j] == m[if j < i then j else j + 1] {}
    forall x | x in refs || x in dirRefs ensures HasIno(m', x) {
      assert HasIno(m, x);
      assert x != m[i].ino;
      InoStays(m, i, x);
    }
  }

  lemma InoStays(m: seq<Inode>, i: nat, x: nat)
    requires i < |m| && HasIno(m, x) && x != m[i].ino
    ensures HasIno(m[..i] + m[i + 1..], x)
  {
    var j :| 0 <= j < |m| && m[j].ino == x;
    assert (m[..i] + m[i + 1..])[if j < i then j else j - 1].ino == x;
  }

  // ---------------------------------------------------------------- what a critical section does

  /** The map with everybody's references. */
  datatype Client = Client(inodes: seq<Inode>, nextIno: nat, refs: multiset<nat>, dirRefs: multiset<nat>)

  ghost function PlaceOf(m: seq<Inode>, k: Key): (i: nat)
    requires HasKey(m, k)
    ensures i < |m| && m[i].key == k
  {
    var i :| 0 <= i < |m| && m[i].key == k; i
  }

  ghost function PlaceOfIno(m: seq<Inode>, x: nat): (i: nat)
    requires HasIno(m, x)
    ensures i < |m| && m[i].ino == x
  {
    var i :| 0 <= i < |m| && m[i].ino == x; i
  }

  /** One reference more on the inode of the file, if it has one. */
  ghost function Looked(c: Client, k: Key): Client {
    if HasKey(c.inodes, k) then
      var i := PlaceOf(c.inodes, k);
      var inode := c.inodes[i];
      c.(inodes := c.inodes[i := inode.(lookupcnt := inode.lookupcnt + 1)], refs := c.refs + multiset{inode.ino})
    else c
  }

  ghost function Added(c: Client, k: Key): Client {
    if HasKey(c.inodes, k) then Looked(c, k)
    else c.(inodes := c.inodes + [Inode(c.nextIno, k, 1, 0)], nextIno := c.nextIno + 1, refs := c.refs + multiset{c.nextIno})
  }

  ghost function Dropped(c: Client, x: nat, n: nat): Client
    requires HasIno(c.inodes, x) && n <= c.refs[x]
  {
    var i := PlaceOfIno(c.inodes, x);
    var left: nat := c.refs[x] - n;
    c.(refs := c.refs[x := left],
       inodes := if left == 0 && c.dirRefs[x] == 0 then c.inodes[..i] + c.inodes[i + 1..]
                 else c.inodes[i := c.inodes[i].(lookupcnt := left)])
  }

  ghost function Listed(c: Client, x: nat, add: bool): Client
    requires HasIno(c.inodes, x) && (!add ==> x in c.dirRefs)
  {
    var i := PlaceOfIno(c.inodes, x);
    var d: nat := if add then c.dirRefs[x] + 1 else c.dirRefs[x] - 1;
    c.(inodes := c.inodes[i := c.inodes[i].(dircachecnt := d)], dirRefs := c.dirRefs[x := d])
  }

  /** A call of another thread; one that would touch the references `mine`, or has none to act on, does nothing. */
  ghost function Does(c: Client, call: Call, mine: multiset<nat>): Client {
    match call
    case Look(k) => Looked(c, k)
    case Add(k) => Added(c, k)
    case Put(x, n) => if HasIno(c.inodes, x) && n + mine[x] <= c.refs[x] then Dropped(c, x, n) else c
    case Cache(x, add) => if HasIno(c.inodes, x) && (if add then x in c.refs else x in c.dirRefs) then Listed(c, x, add) else c
  }

  ghost function DoAll(c: Client, script: seq<Call>, mine: multiset<nat>): Client {
    if script == [] then c
    else
      var n := |script| - 1;
      Does(DoAll(c, script[..n], mine), script[n], mine)
  }

  lemma SamePlace(m: seq<Inode>, refs: multiset<nat>, dirRefs: multiset<nat>, nextIno: nat, i: nat)
    requires Sound(m, refs, dirRefs, nextIno) && i < |m|
    ensures HasKey(m, m[i].key) && PlaceOf(m, m[i].key) == i && HasIno(m, m[i].ino) && PlaceOfIno(m, m[i].ino) == i
  {
    assert m[i].key == m[i].key;
  }

  class NfsClient {
    var inodeMap: seq<Inode>
    var nextIno: nat
    ghost var refs: multiset<nat>
    ghost var dirRefs: multiset<nat>

    ghost predicate Valid()
      reads this
    {
      Sound(inodeMap, refs, dirRefs, nextIno)
    }

    ghost function State(): Client
      reads this
    {
      Client(inodeMap, nextIno, refs, dirRefs)
    }

    constructor ()
      ensures Valid() && inodeMap == [] && refs == multiset{} && dirRefs == multiset{}
    {
      inodeMap, nextIno, refs, dirRefs := [], 1, multiset{}, multiset{};
    }

    /** __inode_from_inode_map(): the inode of the file if it is in the map, with one reference more. */
    method InodeFromInodeMap(k: Key) returns (r: Option<nat>)
      requires Valid()
      modifies this
      ensures Valid() && State() == Looked(old(State()), k) && dirRefs == old(dirRefs)
      ensures r.None? <==> !HasKey(old(inodeMap), k)
      ensures r.None? ==> unchanged(this)
      ensures r.Some? ==>
                && refs == old(refs) + multiset{r.value}
                && Maps(old(inodeMap), k, r.value) && Maps(inodeMap, k, r.value)
      ensures KeepsHeld(old(inodeMap), inodeMap, refs, dirRefs)
    {
      hide Sound;
      var i: nat := 0;
      while i < |inodeMap|
        invariant i <= |inodeMap| && Valid() && unchanged(this)
        invariant forall j :: 0 <= j < i ==> inodeMap[j].key != k
      {
        if inodeMap[i].key == k {
          var inode := inodeMap[i];
          SamePlace(inodeMap, refs, dirRefs, nextIno, i);
          IncrefKeeps(inodeMap, refs, dirRefs, nextIno, i, inode.lookupcnt + 1, inode.dircachecnt);
          CountsOf(inodeMap, refs, dirRefs, nextIno, i);
          assert refs[inode.ino := inode.lookupcnt + 1] == refs + multiset{inode.ino};
          assert dirRefs[inode.ino := inode.dircachecnt] == dirRefs;
          refs := refs + multiset{inode.ino};
          inodeMap := inodeMap[i := inode.(lookupcnt := inode.lookupcnt + 1)];
          assert inodeMap[i].key == k && inodeMap[i].ino == inode.ino;
          ChangeKeeps(old(inodeMap), inodeMap);
          return Some(inode.ino);
        }
        i := i + 1;
      }
      return None;
    }

    /** The end of __get_nfs_inode() under the exclusive lock: insert unless another thread was faster. */
    method AddInode(k: Key) returns (ino: nat)
      requires Valid()
      modifies this
      ensures Valid() && State() == Added(old(State()), k)
      ensures refs == old(refs) + multiset{ino} && dirRefs == old(dirRefs) && old(nextIno) <= nextIno
      ensures Maps(inodeMap, k, ino) && (HasKey(old(inodeMap), k) ==> Maps(old(inodeMap), k, ino))
      ensures KeepsHeld(old(inodeMap), inodeMap, refs, dirRefs)
    {
      hide Sound;
      var r := InodeFromInodeMap(k);
      if r.Some? {
        return r.value;
      }
      ino := nextIno;
      InsertKeeps(inodeMap, refs, dirRefs, nextIno, k, ino);
      assert refs[ino := 1] == refs + multiset{ino} by { NotYet(inodeMap, refs, dirRefs, nextIno, ino); }
      inodeMap, nextIno, refs := inodeMap + [Inode(ino, k, 1, 0)], nextIno + 1, refs + multiset{ino};
      assert inodeMap[|inodeMap| - 1].ino == ino && inodeMap[|inodeMap| - 1].key == k;
      ChangeKeeps(old(inodeMap), inodeMap);
    }

    /** put_nfs_inode_nolock(): drop references; the inode goes only when nobody and no directory cache refers to it. */
    method PutNfsInode(ino: nat, dropcnt: nat) returns (freed: bool)
      requires Valid() && dropcnt <= refs[ino] && HasIno(inodeMap, ino)
      modifies this
      ensures Valid() && State() == Dropped(old(State()), ino, dropcnt)
      ensures refs == old(refs)[ino := old(refs)[ino] - dropcnt] && dirRefs == old(dirRefs)
      ensures freed <==> refs[ino] == 0 && dirRefs[ino] == 0
      ensures forall x :: HasIno(inodeMap, x) <==> HasIno(old(inodeMap), x) && !(freed && x == ino)
      ensures KeepsHeld(old(inodeMap), inodeMap, refs, dirRefs)
    {
      hide Sound;
      var i: nat := 0;
      while inodeMap[i].ino != ino
        invariant i < |inodeMap| && unchanged(this)
        invariant exists j :: i <= j < |inodeMap| && inodeMap[j].ino == ino
        decreases |inodeMap| - i
      {
        i := i + 1;
      }
      var inode := inodeMap[i];
      SamePlace(inodeMap, refs, dirRefs, nextIno, i);
      CountsOf(inodeMap, refs, dirRefs, nextIno, i);
      IncrefKeeps(inodeMap, refs, dirRefs, nextIno, i, inode.lookupcnt - dropcnt, inode.dircachecnt);
      assert dirRefs[ino := inode.dircachecnt] == dirRefs;
      inode := inode.(lookupcnt := inode.lookupcnt - dropcnt);
      inodeMap, refs := inodeMap[i := inode], refs[ino := inode.lookupcnt];
      freed := false;
      SameInos(old(inodeMap), inodeMap);
      ChangeKeeps(old(inodeMap), inodeMap);
      if 0 < inode.dircachecnt || 0 < inode.lookupcnt {
        return;
      }
      EraseKeeps(inodeMap, refs, dirRefs, nextIno, i);
      InosErased(inodeMap, refs, dirRefs, nextIno, i);
      EraseKeepsOthers(inodeMap, i);
      inodeMap, freed := inodeMap[..i] + inodeMap[i + 1..], true;
    }

    /** A directory cache comes to refer to an inode that the caller has a reference on, or ceases to. */
    method Dircache(ino: nat, add: bool)
      requires Valid() && HasIno(inodeMap, ino)
      requires if add then 0 < refs[ino] else 0 < dirRefs[ino]
      modifies this
      ensures Valid() && State() == Listed(old(State()), ino, add) && refs == old(refs)
      ensures dirRefs == if add then old(dirRefs) + multiset{ino} else old(dirRefs) - multiset{ino}
      ensures KeepsHeld(old(inodeMap), inodeMap, refs, dirRefs)
    {
      hide Sound;
      var i :| 0 <= i < |inodeMap| && inodeMap[i].ino == ino;
      var inode := inodeMap[i];
      SamePlace(inodeMap, refs, dirRefs, nextIno, i);
      CountsOf(inodeMap, refs, dirRefs, nextIno, i);
      var d: nat := if add then inode.dircachecnt + 1 else inode.dircachecnt - 1;
      IncrefKeeps(inodeMap, refs, dirRefs, nextIno, i, inode.lookupcnt, d);
      assert refs[ino := inode.lookupcnt] == refs;
      inodeMap, dirRefs := inodeMap[i := inode.(dircachecnt := d)], dirRefs[ino := d];
      ChangeKeeps(old(inodeMap), inodeMap);
    }

    /** Where an inode is in the map. */
    method Find(ino: nat) returns (r: Option<nat>)
      ensures r.None? <==> !HasIno(inodeMap, ino)
      ensures r.Some? ==> r.value < |inodeMap| && inodeMap[r.value].ino == ino
    {
      var i: nat := 0;
      while i < |inodeMap|
        invariant i <= |inodeMap| && forall j :: 0 <= j < i ==> inodeMap[j].ino != ino
      {
        if inodeMap[i].ino == ino {
          return Some(i);
        }
        i := i + 1;
      }
      return None;
    }

    /** One critical section of another thread, which leaves the references of this thread alone. */
    method Other(call: Call, mine: multiset<nat>)
      requires Valid() && mine <= refs
      modifies this
      ensures Valid() && mine <= refs && State() == Does(old(State()), call, mine)
      ensures KeepsHeld(old(inodeMap), inodeMap, mine, multiset{})
    {
      hide Sound, Maps, Looked, Added, Dropped, Listed;
      match call
      case Look(k) =>
        var r := InodeFromInodeMap(k);
      case Add(k) =>
        var ino := AddInode(k);
      case Put(ino, n) =>
        var r := Find(ino);
        if r.Some? {
          CountsOf(inodeMap, refs, dirRefs, nextIno, r.value);
          if n + mine[ino] <= inodeMap[r.value].lookupcnt {
            var freed := PutNfsInode(ino, n);
          }
        }
      case Cache(ino, add) =>
        var r := Find(ino);
        if r.Some? {
          CountsOf(inodeMap, refs, dirRefs, nextIno, r.value);
          if 0 < if add then inodeMap[r.value].lookupcnt else inodeMap[r.value].dircachecnt {
            Dircache(ino, add);
          }
        }
    }

    /** What other threads do, in the order given. */
    method Others(script: seq<Call>, mine: multiset<nat>)
      requires Valid() && mine <= refs
      modifies this
      ensures Valid() && mine <= refs && State() == DoAll(old(State()), script, mine)
      ensures KeepsHeld(old(inodeMap), inodeMap, mine, multiset{})
    {
      hide Sound, Maps, Does;
      for n := 0 to |script|
        invariant Valid() && mine <= refs && State() == DoAll(old(State()), script[..n], mine)
        invariant KeepsHeld(old(inodeMap), inodeMap, mine, multiset{})
      {
        assert script[..n + 1][..n] == script[..n];
        Other(script[n], mine);
      }
      assert script[..|script|] == script;
    }

    /**
      __get_nfs_inode(): the inode of a file, created if need be; the caller holds a reference on it.
      Other threads act before the first look and between it and the second.  If the caller already
      held the inode of the file, that is the one it gets.  Beyond what the others did there is one
      reference more, on the inode returned.
     */
    method GetNfsInode(k: Key, mine: multiset<nat>, before: seq<Call>, between: seq<Call>) returns (ino: nat)
      requires Valid() && mine <= refs
      modifies this
      ensures Valid() && mine + multiset{ino} <= refs
      ensures var first := DoAll(old(State()), before, mine);
              var others := if HasKey(first.inodes, k) then first else DoAll(first, between, mine);
              && State() == Added(others, k)
              && refs == others.refs + multiset{ino} && dirRefs == others.dirRefs
      ensures Maps(inodeMap, k, ino)
      ensures forall held :: held in mine && Maps(old(inodeMap), k, held) ==> ino == held
      ensures KeepsHeld(old(inodeMap), inodeMap, mine, multiset{})
    {
      hide Sound, DoAll;
      Others(before, mine);
      ghost var m := inodeMap;
      var r := InodeFromInodeMap(k);
      if r.Some? {
        ino := r.value;
        OnlyOne(inodeMap, refs, dirRefs, nextIno, k, ino);
        return;
      }
      NoneHeld(m, k);
      Others(between, mine);
      ino := AddInode(k);
    }
  }

  lemma OnlyOne(m: seq<Inode>, refs: multiset<nat>, dirRefs: multiset<nat>, nextIno: nat, k: Key, ino: nat)
    requires Sound(m, refs, dirRefs, nextIno) && Maps(m, k, ino)
    ensures forall x :: Maps(m, k, x) ==> x == ino
  {
  }

  lemma NoneHeld(m: seq<Inode>, k: Key)
    requires !HasKey(m, k)
    ensures forall x :: !Maps(m, k, x)
  {
  }

  lemma CountsOf(m: seq<Inode>, refs: multiset<nat>, dirRefs: multiset<nat>, nextIno: nat, i: nat)
    requires Sound(m, refs, dirRefs, nextIno) && i < |m|
    ensures m[i].lookupcnt == refs[m[i].ino] && m[i].dircachecnt == dirRefs[m[i].ino]
  {
  }

  lemma NotYet(m: seq<Inode>, refs: multiset<nat>, dirRefs: multiset<nat>, nextIno: nat, ino: nat)
    requires Sound(m, refs, dirRefs, nextIno) && nextIno <= ino
    ensures refs[ino] == 0
  {
  }

  lemma SameInos(m: seq<Inode>, m': seq<Inode>)
    requires |m'| == |m| && forall i :: 0 <= i < |m| ==> m'[i].ino == m[i].ino
    ensures forall x :: HasIno(m, x) <==> HasIno(m', x)
  {
    forall x ensures HasIno(m, x) <==> HasIno(m', x) {
      if HasIno(m, x) {
        var i :| 0 <= i < |m| && m[i].ino == x;
        assert m'[i].ino == x;
      }
      if HasIno(m', x) {
        var i :| 0 <= i < |m| && m'[i].ino == x;
        assert m[i].ino == x;
      }
    }
  }

  lemma InosErased(m: seq<Inode>, refs: multiset<nat>, dirRefs: multiset<nat>, nextIno: nat, i: nat)
    requires Sound(m, refs, dirRefs, nextIno) && i < |m|
    ensures forall x :: HasIno(m[..i] + m[i + 1..], x) <==> HasIno(m, x) && x != m[i].ino
  {
    hide HasIno;
    forall x ensures HasIno(m[..i] + m[i + 1..], x) <==> HasIno(m, x) && x != m[i].ino {
      if HasIno(m, x) && x != m[i].ino { InoStays(m, i, x); }
      if HasIno(m[..i] + m[i + 1..], x) { InoWas(m, i, x); }
    }
  }

  lemma InoWas(m: seq<Inode>, i: nat, x: nat)
    requires Unique(m) && i < |m| && HasIno(m[..i] + m[i + 1..], x)
    ensures HasIno(m, x) && x != m[i].ino
  {
    var m' := m[..i] + m[i + 1..];
    var j :| 0 <= j < |m'| && m'[j].ino == x;
    assert m[if j < i then j else j + 1].ino == x;
  }
}
