/**
  SCAN_ACTION_GET: find the chunks for a byte range, allocating the missing ones.

  `Fill` and `Pieces` say in one pass over the ordered map what the new map and the returned list
  are; `GetX` below is the scan as it is carried out, with its case analysis on where the range
  starts, its loop over iterators, the late insertion of new chunks and the search for the extent.
 */
module Get {
  import opened Chunks
  import opened Counters

  // ---------------------------------------------------------------- specification

  /** What becomes of the chunks from index i on: those that meet [lo, hi) are in use once more, gaps are filled. */
  function FillFrom(cs: seq<Chunk>, i: nat, lo: nat, hi: nat, junk: nat -> byte): seq<Chunk>
    requires i <= |cs|
    decreases |cs| - i, if lo < hi then hi - lo else 0
  {
    if hi <= lo then cs[i..]
    else if i == |cs| then [Use(NewChunk(lo, hi, junk))]
    else if cs[i].End() <= lo then [cs[i]] + FillFrom(cs, i + 1, lo, hi, junk)
    else if lo < cs[i].offset then
      var mid := Min(cs[i].offset, hi);
      [Use(NewChunk(lo, mid, junk))] + FillFrom(cs, i, mid, hi, junk)
    else [Use(cs[i])] + FillFrom(cs, i + 1, cs[i].End(), hi, junk)
  }

  /** The map after get(). */
  function Fill(cs: seq<Chunk>, lo: nat, hi: nat, junk: nat -> byte): seq<Chunk> {
    FillFrom(cs, 0, lo, hi, junk)
  }

  /** The part of c returned for the range [lo, hi), where c holds lo. */
  function Window(c: Chunk, lo: nat, hi: nat): Piece
    requires c.Holds(lo) && lo < hi
  {
    var end := Min(c.End(), hi);
    Piece(lo, end - lo, c.bufferOffset + (lo - c.offset), lo == c.offset && end == c.End(), false)
  }

  function NewPiece(lo: nat, hi: nat): Piece
    requires lo <= hi
  {
    Piece(lo, hi - lo, 0, true, true)
  }

  function PiecesFrom(cs: seq<Chunk>, i: nat, lo: nat, hi: nat): seq<Piece>
    requires i <= |cs|
    decreases |cs| - i, if lo < hi then hi - lo else 0
  {
    if hi <= lo then []
    else if i == |cs| then [NewPiece(lo, hi)]
    else if cs[i].End() <= lo then PiecesFrom(cs, i + 1, lo, hi)
    else if lo < cs[i].offset then
      var mid := Min(cs[i].offset, hi);
      [NewPiece(lo, mid)] + PiecesFrom(cs, i, mid, hi)
    else [Window(cs[i], lo, hi)] + PiecesFrom(cs, i + 1, cs[i].End(), hi)
  }

  /** The list returned by get(). */
  function Pieces(cs: seq<Chunk>, lo: nat, hi: nat): seq<Piece> {
    PiecesFrom(cs, 0, lo, hi)
  }

  // ---------------------------------------------------------------- what the specification means

  lemma {:induction false} FillFromWf(cs: seq<Chunk>, i: nat, lo: nat, hi: nat, junk: nat -> byte, from: nat)
    requires Wf(cs) && i <= |cs| && hi <= MAX_FILE_SIZE
    requires from <= lo && (i < |cs| ==> from <= cs[i].offset)
    ensures var r := FillFrom(cs, i, lo, hi, junk); Wf(r) && StartsAt(r, from)
    decreases |cs| - i, if lo < hi then hi - lo else 0
  {
    if hi <= lo || i == |cs| {
    } else if cs[i].End() <= lo {
      FillFromWf(cs, i + 1, lo, hi, junk, cs[i].End());
      WfCons(cs[i], FillFrom(cs, i + 1, lo, hi, junk));
    } else if lo < cs[i].offset {
      var mid := Min(cs[i].offset, hi);
      FillFromWf(cs, i, mid, hi, junk, mid);
      WfCons(Use(NewChunk(lo, mid, junk)), FillFrom(cs, i, mid, hi, junk));
    } else {
      FillFromWf(cs, i + 1, cs[i].End(), hi, junk, cs[i].End());
      WfCons(Use(cs[i]), FillFrom(cs, i + 1, cs[i].End(), hi, junk));
    }
  }

  /** The map stays sorted and disjoint. */
  lemma FillWf(cs: seq<Chunk>, lo: nat, hi: nat, junk: nat -> byte)
    requires Wf(cs) && hi <= MAX_FILE_SIZE
    ensures Wf(Fill(cs, lo, hi, junk))
  {
    FillFromWf(cs, 0, lo, hi, junk, 0);
  }

  /** get() on one chunk of the map. */
  function Touch(c: Chunk, lo: nat, hi: nat): Chunk {
    if lo < hi && c.Meets(lo, hi) then Use(c) else c
  }

  /** Old chunks survive, changed in nothing but the in-use count of those that meet the range. */
  lemma {:induction false} FillKeepsOld(cs: seq<Chunk>, i: nat, lo: nat, hi: nat, junk: nat -> byte, k: nat)
    requires Wf(cs) && i <= k < |cs|
    ensures Touch(cs[k], lo, hi) in FillFrom(cs, i, lo, hi, junk)
    decreases |cs| - i, if lo < hi then hi - lo else 0
  {
    if hi <= lo {
      assert cs[i..][k - i] == cs[k];
    } else if cs[i].End() <= lo {
      if i < k { FillKeepsOld(cs, i + 1, lo, hi, junk, k); }
    } else if lo < cs[i].offset {
      FillKeepsOld(cs, i, Min(cs[i].offset, hi), hi, junk, k);
    } else if i < k {
      FillKeepsOld(cs, i + 1, cs[i].End(), hi, junk, k);
    }
  }

  /** A chunk that is new after get(): a fresh buffer inside the range where nothing was cached. */
  ghost predicate Fresh(cs: seq<Chunk>, lo: nat, hi: nat, junk: nat -> byte, d: Chunk) {
    && lo <= d.offset && d.End() <= hi
    && d == Use(NewChunk(d.offset, d.End(), junk))
    && Uncached(cs, d.offset, d.End())
  }

  ghost predicate Uncached(cs: seq<Chunk>, lo: nat, hi: nat) {
    forall k :: 0 <= k < |cs| ==> !cs[k].Meets(lo, hi)
  }

  lemma TouchWiden(c: Chunk, lo: nat, lo': nat, hi: nat)
    requires lo <= lo' <= c.offset && lo < hi && 0 < c.length
    ensures Touch(c, lo, hi) == Touch(c, lo', hi)
  {
  }

  ghost predicate FromOld(cs: seq<Chunk>, i: nat, lo: nat, hi: nat, d: Chunk) {
    exists k :: i <= k < |cs| && d == Touch(cs[k], lo, hi)
  }

  lemma FromOldWiden(cs: seq<Chunk>, i: nat, lo: nat, i': nat, lo': nat, hi: nat, d: Chunk)
    requires Wf(cs) && i <= i' && lo <= lo' && lo < hi && FromOld(cs, i', lo', hi, d)
    requires i' < |cs| ==> lo == lo' || lo' <= cs[i'].offset
    ensures FromOld(cs, i, lo, hi, d)
  {
    var k :| i' <= k < |cs| && d == Touch(cs[k], lo', hi);
    if lo < lo' { TouchWiden(cs[k], lo, lo', hi); }
  }

  lemma GapIsFresh(cs: seq<Chunk>, i: nat, lo: nat, mid: nat, hi: nat, junk: nat -> byte)
    requires Wf(cs) && i <= |cs| && lo < mid <= hi && (0 < i ==> cs[i - 1].End() <= lo)
    requires i < |cs| ==> mid <= cs[i].offset
    ensures Fresh(cs, lo, hi, junk, Use(NewChunk(lo, mid, junk)))
  {
  }

  lemma FreshWiden(cs: seq<Chunk>, lo: nat, lo': nat, hi: nat, junk: nat -> byte, d: Chunk)
    requires lo <= lo' && Fresh(cs, lo', hi, junk, d)
    ensures Fresh(cs, lo, hi, junk, d)
  {
  }

  lemma OldIsFromOld(cs: seq<Chunk>, i: nat, k: nat, lo: nat, hi: nat)
    requires i <= k < |cs|
    ensures FromOld(cs, i, lo, hi, Touch(cs[k], lo, hi))
  {
  }

  /** One step of the walk over the map adds nothing else. */
  lemma AddsWiden(cs: seq<Chunk>, i: nat, lo: nat, i': nat, lo': nat, hi: nat, junk: nat -> byte, d: Chunk)
    requires Wf(cs) && i <= i' && lo <= lo' && lo < hi
    requires i' < |cs| ==> lo == lo' || lo' <= cs[i'].offset
    requires Fresh(cs, lo', hi, junk, d) || FromOld(cs, i', lo', hi, d)
    ensures Fresh(cs, lo, hi, junk, d) || FromOld(cs, i, lo, hi, d)
  {
    hide Fresh, FromOld;
    if Fresh(cs, lo', hi, junk, d) {
      FreshWiden(cs, lo, lo', hi, junk, d);
    } else {
      FromOldWiden(cs, i, lo, i', lo', hi, d);
    }
  }

  /** Nothing but old chunks and fresh ones is in the new map. */
  lemma {:induction false} FillAddsOnlyGaps(cs: seq<Chunk>, i: nat, lo: nat, hi: nat, junk: nat -> byte, d: Chunk)
    requires Wf(cs) && i <= |cs| && d in FillFrom(cs, i, lo, hi, junk)
    requires 0 < i ==> cs[i - 1].End() <= lo
    ensures Fresh(cs, lo, hi, junk, d) || FromOld(cs, i, lo, hi, d)
    decreases |cs| - i, if lo < hi then hi - lo else 0
  {
    hide Fresh, FromOld, FillFrom, Wf, Touch;
    FillCase(cs, i, lo, hi, junk, d);
    if hi <= lo {
      var k :| 0 <= k < |cs| - i && cs[i..][k] == d;
      OldIsFromOld(cs, i, i + k, lo, hi);
    } else if i == |cs| {
      GapIsFresh(cs, i, lo, hi, hi, junk);
    } else if cs[i].End() <= lo {
      OldIsFromOld(cs, i, i, lo, hi);
      if d != cs[i] {
        FillAddsOnlyGaps(cs, i + 1, lo, hi, junk, d);
        AddsWiden(cs, i, lo, i + 1, lo, hi, junk, d);
      }
    } else if lo < cs[i].offset {
      var mid := Min(cs[i].offset, hi);
      GapIsFresh(cs, i, lo, mid, hi, junk);
      if d != Use(NewChunk(lo, mid, junk)) {
        FillAddsOnlyGaps(cs, i, mid, hi, junk, d);
        AddsWiden(cs, i, lo, i, mid, hi, junk, d);
      }
    } else {
      OldIsFromOld(cs, i, i, lo, hi);
      if d != Use(cs[i]) {
        FillAddsOnlyGaps(cs, i + 1, cs[i].End(), hi, junk, d);
        AddsWiden(cs, i, lo, i + 1, cs[i].End(), hi, junk, d);
      }
    }
  }

  /** A chunk of the new map is the first one, or one of the rest. */
  lemma FillCase(cs: seq<Chunk>, i: nat, lo: nat, hi: nat, junk: nat -> byte, d: Chunk)
    requires Wf(cs) && i <= |cs| && d in FillFrom(cs, i, lo, hi, junk)
    ensures if hi <= lo then d in cs[i..]
            else if i == |cs| then d == Use(NewChunk(lo, hi, junk))
            else if cs[i].End() <= lo then
              Touch(cs[i], lo, hi) == cs[i] && (d == cs[i] || d in FillFrom(cs, i + 1, lo, hi, junk))
            else if lo < cs[i].offset then
              var mid := Min(cs[i].offset, hi);
              d == Use(NewChunk(lo, mid, junk)) || d in FillFrom(cs, i, mid, hi, junk)
            else
              && Touch(cs[i], lo, hi) == Use(cs[i])
              && (d == Use(cs[i]) || d in FillFrom(cs, i + 1, cs[i].End(), hi, junk))
    ensures i + 1 < |cs| ==> cs[i].End() <= cs[i + 1].offset
    ensures hi <= lo ==> forall k :: i <= k < |cs| ==> Touch(cs[k], lo, hi) == cs[k]
  {
  }

  /** Afterwards exactly the old bytes and the bytes of the range are cached. */
  lemma FillCovers(cs: seq<Chunk>, lo: nat, hi: nat, junk: nat -> byte, o: nat)
    requires Wf(cs)
    ensures Cached(Fill(cs, lo, hi, junk), o) <==> Cached(cs, o) || lo <= o < hi
  {
    var r := Fill(cs, lo, hi, junk);
    if Cached(cs, o) {
      var k :| 0 <= k < |cs| && cs[k].Holds(o);
      FillKeepsOld(cs, 0, lo, hi, junk, k);
      HoldsCached(r, Touch(cs[k], lo, hi), o);
    } else if lo <= o < hi {
      FillReaches(cs, 0, lo, hi, junk, o);
    }
    if Cached(r, o) {
      var k :| 0 <= k < |r| && r[k].Holds(o);
      FillAddsOnlyGaps(cs, 0, lo, hi, junk, r[k]);
      if !Fresh(cs, lo, hi, junk, r[k]) {
        var m :| 0 <= m < |cs| && r[k] == Touch(cs[m], lo, hi);
        assert cs[m].Holds(o);
      }
    }
  }

  lemma HoldsCached(cs: seq<Chunk>, c: Chunk, o: nat)
    requires c in cs && c.Holds(o)
    ensures Cached(cs, o)
  {
    var k :| 0 <= k < |cs| && cs[k] == c;
  }

  lemma {:induction false} FillReaches(cs: seq<Chunk>, i: nat, lo: nat, hi: nat, junk: nat -> byte, o: nat)
    requires Wf(cs) && i <= |cs| && lo <= o < hi
    ensures Cached(FillFrom(cs, i, lo, hi, junk), o)
    decreases |cs| - i, hi - lo
  {
    var r := FillFrom(cs, i, lo, hi, junk);
    if r[0].Holds(o) {
    } else if i < |cs| {
      if cs[i].End() <= lo {
        FillReaches(cs, i + 1, lo, hi, junk, o);
      } else if lo < cs[i].offset {
        FillReaches(cs, i, Min(cs[i].offset, hi), hi, junk, o);
      } else {
        FillReaches(cs, i + 1, cs[i].End(), hi, junk, o);
      }
      var k :| 0 <= k < |r[1..]| && r[1..][k].Holds(o);
      assert r[k + 1].Holds(o);
    }
  }

  ghost predicate Tiles(ps: seq<Piece>, lo: nat, hi: nat) {
    && ps != []
    && ps[0].offset == lo && ps[|ps| - 1].End() == hi
    && (forall k :: 0 <= k < |ps| ==> 0 < ps[k].length)
    && (forall k :: 0 <= k < |ps| - 1 ==> ps[k].End() == ps[k + 1].offset)
  }

  lemma TilesCons(p: Piece, ps: seq<Piece>, hi: nat)
    requires 0 < p.length && (if ps == [] then p.End() == hi else Tiles(ps, p.End(), hi))
    ensures Tiles([p] + ps, p.offset, hi)
  {
  }

  /** The list returned by get() is ordered, gap-free and exactly the range. */
  lemma {:induction false} PiecesTile(cs: seq<Chunk>, i: nat, lo: nat, hi: nat)
    requires Wf(cs) && i <= |cs| && lo < hi
    ensures Tiles(PiecesFrom(cs, i, lo, hi), lo, hi)
    decreases |cs| - i, hi - lo
  {
    if i == |cs| {
    } else if cs[i].End() <= lo {
      PiecesTile(cs, i + 1, lo, hi);
    } else if lo < cs[i].offset {
      var mid := Min(cs[i].offset, hi);
      if mid < hi { PiecesTile(cs, i, mid, hi); }
      TilesCons(NewPiece(lo, mid), PiecesFrom(cs, i, mid, hi), hi);
    } else {
      if cs[i].End() < hi { PiecesTile(cs, i + 1, cs[i].End(), hi); }
      TilesCons(Window(cs[i], lo, hi), PiecesFrom(cs, i + 1, cs[i].End(), hi), hi);
    }
  }

  /** p is exactly the part of d inside [lo, hi), and says truthfully what it is. */
  ghost predicate Describes(cs: seq<Chunk>, lo: nat, hi: nat, d: Chunk, p: Piece) {
    && p.offset == Max(d.offset, lo) && p.End() == Min(d.End(), hi)
    && p.bufferOffset == d.bufferOffset + (p.offset - d.offset)
    && (p.isWhole <==> p.offset == d.offset && p.End() == d.End())
    && (p.isNew <==> Uncached(cs, d.offset, d.End()))
  }

  /** Entry by entry, ps describes the chunks of r from index f on. */
  ghost predicate Match(cs: seq<Chunk>, lo: nat, hi: nat, r: seq<Chunk>, f: nat, ps: seq<Piece>) {
    f + |ps| <= |r| && forall k :: 0 <= k < |ps| ==> Describes(cs, lo, hi, r[f + k], ps[k])
  }

  lemma MatchCons(cs: seq<Chunk>, lo: nat, lo': nat, hi: nat, d: Chunk, r: seq<Chunk>, p: Piece, ps: seq<Piece>)
    requires Match(cs, lo', hi, r, 0, ps) && Describes(cs, lo, hi, d, p)
    requires lo <= lo' && StartsAt(r, lo')
    ensures Match(cs, lo, hi, [d] + r, 0, [p] + ps)
  {
    forall k | 1 <= k < |ps| + 1 ensures Describes(cs, lo, hi, ([d] + r)[0 + k], ([p] + ps)[k]) {
      assert Describes(cs, lo', hi, r[0 + (k - 1)], ps[k - 1]);
    }
  }

  lemma DescribesNew(cs: seq<Chunk>, i: nat, lo: nat, mid: nat, hi: nat, junk: nat -> byte)
    requires Wf(cs) && i <= |cs| && lo < mid <= hi
    requires 0 < i ==> cs[i - 1].End() <= lo
    requires i < |cs| ==> mid <= cs[i].offset
    ensures Describes(cs, lo, hi, Use(NewChunk(lo, mid, junk)), NewPiece(lo, mid))
  {
  }

  lemma DescribesOld(cs: seq<Chunk>, i: nat, lo: nat, hi: nat)
    requires Wf(cs) && i < |cs| && cs[i].Holds(lo) && lo < hi
    ensures Describes(cs, lo, hi, Use(cs[i]), Window(cs[i], lo, hi))
  {
    assert cs[i].Meets(cs[i].offset, cs[i].End());
  }

  lemma {:induction false} MatchFrom(cs: seq<Chunk>, i: nat, lo: nat, hi: nat, junk: nat -> byte)
    requires Wf(cs) && i <= |cs| && lo < hi <= MAX_FILE_SIZE
    requires i < |cs| ==> lo < cs[i].End()
    requires 0 < i ==> cs[i - 1].End() <= lo
    ensures Match(cs, lo, hi, FillFrom(cs, i, lo, hi, junk), 0, PiecesFrom(cs, i, lo, hi))
    decreases |cs| - i, hi - lo
  {
    if i == |cs| {
    } else if lo < cs[i].offset {
      var mid := Min(cs[i].offset, hi);
      if mid < hi { MatchFrom(cs, i, mid, hi, junk); }
      FillFromWf(cs, i, mid, hi, junk, mid);
      DescribesNew(cs, i, lo, mid, hi, junk);
      MatchCons(cs, lo, mid, hi, Use(NewChunk(lo, mid, junk)), FillFrom(cs, i, mid, hi, junk),
                NewPiece(lo, mid), PiecesFrom(cs, i, mid, hi));
    } else {
      var end := cs[i].End();
      if end < hi { MatchFrom(cs, i + 1, end, hi, junk); }
      FillFromWf(cs, i + 1, end, hi, junk, end);
      DescribesOld(cs, i, lo, hi);
      MatchCons(cs, lo, end, hi, Use(cs[i]), FillFrom(cs, i + 1, end, hi, junk),
                Window(cs[i], lo, hi), PiecesFrom(cs, i + 1, end, hi));
    }
  }

  /** Chunks before the range play no part in the list. */
  lemma {:induction false} PiecesSkip(cs: seq<Chunk>, i: nat, f: nat, lo: nat, hi: nat)
    requires i <= f <= |cs| && lo < hi
    requires forall k :: i <= k < f ==> cs[k].End() <= lo
    ensures PiecesFrom(cs, i, lo, hi) == PiecesFrom(cs, f, lo, hi)
    decreases f - i
  {
    if i < f {
      PiecesSkip(cs, i + 1, f, lo, hi);
    }
  }

  /** Chunks before the range stay in front. */
  lemma {:induction false} FillSkip(cs: seq<Chunk>, i: nat, f: nat, lo: nat, hi: nat, junk: nat -> byte)
    requires i <= f <= |cs| && lo < hi
    requires forall k :: i <= k < f ==> cs[k].End() <= lo
    ensures FillFrom(cs, i, lo, hi, junk) == cs[i..f] + FillFrom(cs, f, lo, hi, junk)
    decreases f - i
  {
    if i < f {
      FillSkip(cs, i + 1, f, lo, hi, junk);
      ConsSlice(cs, i, f, FillFrom(cs, f, lo, hi, junk));
    }
  }

  lemma ConsSlice(cs: seq<Chunk>, i: nat, f: nat, rest: seq<Chunk>)
    requires i < f <= |cs|
    ensures [cs[i]] + (cs[i + 1..f] + rest) == cs[i..f] + rest
  {
  }

  /** f is the index of the first chunk that ends after lo. */
  ghost predicate FirstAfter(cs: seq<Chunk>, lo: nat, f: nat) {
    && f <= |cs|
    && (forall k :: 0 <= k < f ==> cs[k].End() <= lo)
    && (forall k :: f <= k < |cs| ==> lo < cs[k].End())
  }

  /**
    The k-th entry of the list is the part inside the range of the k-th of the consecutive chunks
    of the new map that meet the range; the chunks before them are as they were.
   */
  lemma PiecesDescribeFill(cs: seq<Chunk>, lo: nat, hi: nat, junk: nat -> byte, f: nat)
    requires Wf(cs) && lo < hi <= MAX_FILE_SIZE && FirstAfter(cs, lo, f)
    ensures Match(cs, lo, hi, Fill(cs, lo, hi, junk), f, Pieces(cs, lo, hi))
    ensures Fill(cs, lo, hi, junk)[..f] == cs[..f]
  {
    PiecesSkip(cs, 0, f, lo, hi);
    FillSkip(cs, 0, f, lo, hi, junk);
    MatchFrom(cs, f, lo, hi, junk);
    var r, s, ps := Fill(cs, lo, hi, junk), FillFrom(cs, f, lo, hi, junk), Pieces(cs, lo, hi);
    forall k | 0 <= k < |ps| ensures Describes(cs, lo, hi, r[f + k], ps[k]) {
      assert r[f + k] == s[0 + k];
    }
  }

  /** The buffer position in an entry shows the bytes of the file, whatever was trimmed off the chunk before. */
  lemma PieceShowsBytes(cs: seq<Chunk>, lo: nat, hi: nat, d: Chunk, p: Piece, o: nat)
    requires d.Ok() && Describes(cs, lo, hi, d, p) && p.offset <= o < p.End()
    ensures d.Holds(o) && p.bufferOffset + (o - p.offset) < |d.mb.buffer|
    ensures d.mb.buffer[p.bufferOffset + (o - p.offset)] == d.At(o)
  {
  }

  // ---------------------------------------------------------------- the extent

  /** [left, lo) is cached, starts at a chunk edge, and beyond the chunk holding lo is all waiting for a flush. */
  ghost predicate LeftGood(cs: seq<Chunk>, lo: nat, hi: nat, left: nat) {
    && left <= lo
    && (forall o :: left <= o < lo ==> Cached(cs, o))
    && ((left == lo && !Cached(cs, lo)) || exists k :: 0 <= k < |cs| && cs[k].offset == left)
    && (forall k :: 0 <= k < |cs| && cs[k].Meets(left, lo) ==> cs[k].Meets(lo, hi) || cs[k].NeedsFlush())
  }

  /** Likewise for [hi, right). */
  ghost predicate RightGood(cs: seq<Chunk>, lo: nat, hi: nat, right: nat) {
    && 0 < hi <= right
    && (forall o :: hi <= o < right ==> Cached(cs, o))
    && ((right == hi && !Cached(cs, hi - 1)) || exists k :: 0 <= k < |cs| && cs[k].End() == right)
    && (forall k :: 0 <= k < |cs| && cs[k].Meets(hi, right) ==> cs[k].Meets(lo, hi) || cs[k].NeedsFlush())
  }

  /** The chunks before index k end at or before n, the others start at or after it. */
  ghost predicate SplitsAt(cs: seq<Chunk>, k: int, n: nat) {
    && 0 <= k <= |cs|
    && (forall i :: 0 <= i < k ==> cs[i].End() <= n)
    && (forall i :: k <= i < |cs| ==> n <= cs[i].offset)
  }

  /** The range starts in the gap between two chunks. */
  ghost predicate Overlooked(cs: seq<Chunk>, lo: nat) {
    exists k :: 0 < k < |cs| && cs[k - 1].End() <= lo < cs[k].offset
  }

  ghost predicate WaitsBefore(cs: seq<Chunk>, n: nat) {
    exists k :: 0 <= k < |cs| && cs[k].End() == n && cs[k].NeedsFlush()
  }

  ghost predicate WaitsAfter(cs: seq<Chunk>, n: nat) {
    exists k :: 0 <= k < |cs| && cs[k].offset == n && cs[k].NeedsFlush()
  }

  /** Where to go on looking to the left; -1 if the scan does not look back. */
  ghost predicate LookbackFound(cs: seq<Chunk>, lo: nat, lookback: int, left: nat) {
    && -1 <= lookback < |cs|
    && (Overlooked(cs, lo) ==> lookback == -1 && left == lo)
    && (lookback != -1 ==> SplitsAt(cs, lookback + 1, left))
    && (lookback == -1 ==> Overlooked(cs, lo) || forall k :: 0 <= k < |cs| ==> cs[k].End() != left)
  }

  /** Where to go on looking to the right. */
  ghost predicate RightFound(cs: seq<Chunk>, lo: nat, hi: nat, it: nat, right: nat, ps: seq<Piece>) {
    && (right < hi ==> it == |cs| && SplitsAt(cs, it, right) && ps != [] && ps[|ps| - 1].isNew)
    && (right >= hi ==> RightGood(cs, lo, hi, right))
    && (SplitsAt(cs, it, right) || (it + 1 == |cs| && cs[it].End() <= lo && right == hi))
  }

  lemma LeftInside(cs: seq<Chunk>, i: nat, lo: nat, hi: nat)
    requires Wf(cs) && i < |cs| && cs[i].Holds(lo) && lo < hi
    ensures LeftGood(cs, lo, hi, cs[i].offset)
    ensures LookbackFound(cs, lo, i - 1, cs[i].offset)
  {
    forall o | cs[i].offset <= o < lo ensures Cached(cs, o) {
      assert cs[i].Holds(o);
    }
  }

  lemma LeftGap(cs: seq<Chunk>, i: nat, lo: nat, hi: nat)
    requires Wf(cs) && i <= |cs| && SplitsAt(cs, i, lo) && lo < hi
    requires i < |cs| ==> lo < cs[i].offset
    ensures LeftGood(cs, lo, hi, lo)
    ensures i == |cs| ==> !Overlooked(cs, lo)
    ensures 0 < i < |cs| ==> Overlooked(cs, lo)
  {
    if 0 < i < |cs| {
      assert cs[i - 1].End() <= lo < cs[i].offset;
    }
  }

  /** In a gap the scan looks back only from behind the last chunk, and only if that one ends where the range starts. */
  lemma LookbackGap(cs: seq<Chunk>, i: nat, lo: nat)
    requires Wf(cs) && i <= |cs| && SplitsAt(cs, i, lo) && (i < |cs| ==> lo < cs[i].offset)
    ensures LookbackFound(cs, lo, if i == |cs| && 0 < i && cs[i - 1].End() == lo then i - 1 else -1, lo)
  {
    if 0 < i < |cs| {
      assert cs[i - 1].End() <= lo < cs[i].offset;
    }
  }

  /** The chunks that start before lo, except perhaps the last of them, end before it as well. */
  lemma BoundSplits(cs: seq<Chunk>, it: nat, lo: nat)
    requires Wf(cs) && it <= |cs|
    requires forall i :: 0 <= i < it ==> cs[i].offset < lo
    requires forall i :: it <= i < |cs| ==> lo <= cs[i].offset
    ensures (it == 0 || cs[it - 1].End() <= lo) ==> SplitsAt(cs, it, lo)
    ensures forall i :: 0 <= i < it - 1 ==> cs[i].End() <= lo
    ensures it < |cs| ==> 0 < cs[it].length
    ensures 0 < it < |cs| && cs[it].offset == lo ==> cs[it - 1].End() <= lo
  {
  }

  /** Where the range starts: how far to the left the scan has to go back, and the chunk it goes on with. */
  method Locate(cs: seq<Chunk>, offset: nat, hi: nat)
    returns (it: nat, lookback: int, left: nat, gapEnd: nat, only: bool)
    requires Wf(cs) && offset < hi
    ensures it <= |cs|
    ensures LeftGood(cs, offset, hi, left) && LookbackFound(cs, offset, lookback, left)
    ensures offset <= gapEnd <= hi
    ensures only ==> gapEnd == offset && SplitsAt(cs, |cs|, offset) && (it == |cs| || it + 1 == |cs|)
    ensures !only ==>
              && it < |cs| && (forall i :: 0 <= i < it ==> cs[i].End() <= offset)
              && (if gapEnd == offset then cs[it].Holds(offset) else gapEnd == Min(cs[it].offset, hi))
  {
    hide LeftGood, LookbackFound, Wf;
    lookback, gapEnd, only := -1, offset, false;
    it := LowerBound(cs, offset);
    BoundSplits(cs, it, offset);
    if it == |cs| {
      if |cs| == 0 {
        left, only := offset, true;
        LeftGap(cs, 0, offset, hi);
        LookbackGap(cs, 0, offset);
      } else {
        it := it - 1;
        if cs[it].End() <= offset {
          left, only := offset, true;
          if cs[it].End() == offset {
            lookback := it;
          }
          LeftGap(cs, |cs|, offset, hi);
          LookbackGap(cs, |cs|, offset);
        } else {
          left := cs[it].offset;
          if it != 0 {
            lookback := it - 1;
          }
          LeftInside(cs, it, offset, hi);
        }
      }
    } else if cs[it].offset == offset {
      left := cs[it].offset;
      if it != 0 {
        lookback := it - 1;
      }
      LeftInside(cs, it, offset, hi);
    } else if it == 0 {
      gapEnd := Min(cs[it].offset, hi);
      left := offset;
      LeftGap(cs, it, offset, hi);
      LookbackGap(cs, it, offset);
    } else if cs[it - 1].End() <= offset {
      gapEnd := Min(cs[it].offset, hi);
      left := offset;
      // The edge of the previous chunk is compared with the end of the new chunk, not with its start.
      if !(cs[it - 1].End() < gapEnd) {
        lookback := it - 1;
      }
      LeftGap(cs, it, offset, hi);
      LookbackGap(cs, it, offset);
    } else {
      it := it - 1;
      left := cs[it].offset;
      if it != 0 {
        lookback := it - 1;
      }
      LeftInside(cs, it, offset, hi);
    }
  }

  /** State of the walk over the chunks: everything up to next is listed, and the right edge is known so far. */
  ghost predicate Walked(cs: seq<Chunk>, lo: nat, next: nat, hi: nat, it: nat, right: nat) {
    && lo < next <= hi && it <= |cs|
    && SplitsAt(cs, it, right)
    && next <= right
    && (next < right ==> next == hi && 0 < it && cs[it - 1].Holds(hi - 1) && cs[it - 1].End() == right)
    && ((next == right && !Cached(cs, next - 1)) || (0 < it && cs[it - 1].End() == right))
  }

  lemma WalkedPastChunk(cs: seq<Chunk>, lo: nat, next: nat, hi: nat, it: nat)
    requires Wf(cs) && lo <= next < hi && it < |cs| && cs[it].Holds(next)
    ensures Walked(cs, lo, Min(cs[it].End(), hi), hi, it + 1, cs[it].End())
  {
  }

  lemma WalkedPastGap(cs: seq<Chunk>, lo: nat, next: nat, hi: nat, it: nat)
    requires Wf(cs) && lo <= next < hi && it < |cs|
    requires next < cs[it].offset && forall i :: 0 <= i < it ==> cs[i].End() <= next
    ensures var mid := Min(cs[it].offset, hi); Walked(cs, lo, mid, hi, it, mid)
  {
  }

  lemma WalkedEnds(cs: seq<Chunk>, lo: nat, next: nat, hi: nat, it: nat, right: nat, ps: seq<Piece>)
    requires Wf(cs) && Walked(cs, lo, next, hi, it, right)
    requires next < hi ==> it == |cs| && ps != [] && ps[|ps| - 1].isNew
    ensures RightFound(cs, lo, hi, it, right, ps)
  {
    if hi < right {
      forall o | hi <= o < right ensures Cached(cs, o) {
        assert cs[it - 1].Holds(o);
      }
    }
  }

  lemma OnlyEnds(cs: seq<Chunk>, lo: nat, hi: nat, it: nat, ps: seq<Piece>)
    requires Wf(cs) && lo < hi && SplitsAt(cs, |cs|, lo) && (it == |cs| || it + 1 == |cs|)
    ensures RightFound(cs, lo, hi, it, hi, ps)
  {
  }

  /** One turn of the walk: the next piece, from the chunk at `it` or from the gap before it. */
  method Advance(cs: seq<Chunk>, it: nat, next: nat, remaining: nat, ghost lo: nat)
    returns (p: Piece, it': nat, right: nat)
    requires Wf(cs) && it < |cs| && 0 < remaining && lo <= next < cs[it].End()
    requires forall i :: 0 <= i < it ==> cs[i].End() <= next
    ensures it' <= |cs|
    ensures PiecesFrom(cs, it, next, next + remaining) == [p] + PiecesFrom(cs, it', p.End(), next + remaining)
    ensures p.offset == next && 0 < p.length <= remaining
    ensures Walked(cs, lo, p.End(), next + remaining, it', right)
  {
    var bc := cs[it];
    ghost var hi := next + remaining;
    if next == bc.offset {
      var chunkLength := Min(bc.length, remaining);
      p := Piece(next, chunkLength, bc.bufferOffset, chunkLength == bc.length, false);
      WalkedPastChunk(cs, lo, next, hi, it);
      right, it' := bc.End(), it + 1;
    } else if next < bc.offset {
      var chunkLength := Min(bc.offset - next, remaining);
      p := NewPiece(next, next + chunkLength);
      WalkedPastGap(cs, lo, next, hi, it);
      right, it' := next + chunkLength, it;
    } else {
      var chunkLength := Min(bc.End() - next, remaining);
      p := Piece(next, chunkLength, bc.bufferOffset + (next - bc.offset), false, false);
      WalkedPastChunk(cs, lo, next, hi, it);
      right, it' := bc.End(), it + 1;
    }
  }

  /** Go over the chunks from `it` on till the range is covered, then allocate what lies after the last one. */
  method Walk(cs: seq<Chunk>, start: nat, offset: nat, length: nat, right0: nat, ghost lo: nat)
    returns (pieces: seq<Piece>, it: nat, right: nat, ghost next: nat)
    requires Wf(cs) && start < |cs|
    requires forall i :: 0 <= i < start ==> cs[i].End() <= offset
    requires if lo < offset then Walked(cs, lo, offset, offset + length, start, right0)
             else lo == offset && 0 < length && cs[start].Holds(offset)
    ensures pieces == PiecesFrom(cs, start, offset, offset + length)
    ensures it <= |cs| && lo < offset + length
    ensures Walked(cs, lo, next, offset + length, it, right)
    ensures next < offset + length ==> it == |cs| && pieces != [] && pieces[|pieces| - 1].isNew
  {
    hide Walked, Wf, PiecesFrom;
    ghost var hi := offset + length;
    var nextOffset, remaining: nat := offset, length;
    it, right, pieces := start, right0, [];
    while remaining != 0 && it < |cs|
      invariant nextOffset + remaining == hi && lo <= nextOffset && it <= |cs|
      invariant if lo < nextOffset then Walked(cs, lo, nextOffset, hi, it, right)
                else nextOffset == offset && 0 < length && it == start
      invariant PiecesFrom(cs, start, offset, hi) == pieces + PiecesFrom(cs, it, nextOffset, hi)
      decreases remaining
    {
      var p;
      ghost var rest := PiecesFrom(cs, it, nextOffset, hi);
      if lo < nextOffset { WalkedOn(cs, lo, nextOffset, hi, it, right); }
      p, it, right := Advance(cs, it, nextOffset, remaining, lo);
      Reassociate(pieces, p, rest, PiecesFrom(cs, it, p.End(), hi));
      pieces := pieces + [p];
      remaining, nextOffset := remaining - p.length, nextOffset + p.length;
    }
    PiecesEnd(cs, it, nextOffset, hi);
    if remaining != 0 {
      pieces := pieces + [NewPiece(nextOffset, nextOffset + remaining)];
    }
    next := nextOffset;
  }

  lemma PiecesEnd(cs: seq<Chunk>, it: nat, next: nat, hi: nat)
    requires it <= |cs| && (it == |cs| || hi <= next)
    ensures PiecesFrom(cs, it, next, hi) == if hi <= next then [] else [NewPiece(next, hi)]
  {
  }

  lemma WalkedOn(cs: seq<Chunk>, lo: nat, next: nat, hi: nat, it: nat, right: nat)
    requires Wf(cs) && Walked(cs, lo, next, hi, it, right) && next < hi && it < |cs|
    ensures next < cs[it].End() && forall i :: 0 <= i < it ==> cs[i].End() <= next
  {
  }

  lemma Reassociate(ps: seq<Piece>, p: Piece, rest: seq<Piece>, rest': seq<Piece>)
    requires rest == [p] + rest'
    ensures ps + rest == (ps + [p]) + rest'
  {
  }

  /** The search of the map, up to but not including the insertion of the new chunks. */
  method Collect(cs: seq<Chunk>, offset: nat, length: nat)
    returns (pieces: seq<Piece>, it: nat, lookback: int, left: nat, right: nat)
    requires Wf(cs) && 0 < length
    ensures pieces == Pieces(cs, offset, offset + length)
    ensures LeftGood(cs, offset, offset + length, left) && LookbackFound(cs, offset, lookback, left)
    ensures it <= |cs| && RightFound(cs, offset, offset + length, it, right, pieces)
  {
    hide LeftGood, LookbackFound, RightFound;
    ghost var hi := offset + length;
    var only, gapEnd;
    ghost var next;
    it, lookback, left, gapEnd, only := Locate(cs, offset, offset + length);
    if only {
      PiecesSkip(cs, 0, |cs|, offset, hi);
      pieces, right := [NewPiece(offset, offset + length)], offset + length;
      OnlyEnds(cs, offset, hi, it, pieces);
    } else {
      PiecesSkip(cs, 0, it, offset, hi);
      if offset < gapEnd {
        WalkedPastGap(cs, offset, offset, hi, it);
        pieces, it, right, next := Walk(cs, it, gapEnd, length - (gapEnd - offset), gapEnd, offset);
        pieces := [NewPiece(offset, gapEnd)] + pieces;
      } else {
        pieces, it, right, next := Walk(cs, it, offset, length, BAD_OFFSET, offset);
      }
      WalkedEnds(cs, offset, next, hi, it, right, pieces);
    }
  }

  // ---------------------------------------------------------------- inserting the new chunks

  /** try_emplace() of a chunk that meets no other. */
  method Emplace(m: seq<Chunk>, c: Chunk, ghost at: nat) returns (r: seq<Chunk>)
    requires at <= |m| && forall i :: 0 <= i < at ==> m[i].offset < c.offset
    requires forall i :: at <= i < |m| ==> c.offset < m[i].offset
    ensures r == m[..at] + [c] + m[at..]
  {
    var p := 0;
    while p < |m| && m[p].offset < c.offset
      invariant p <= at
    {
      p := p + 1;
    }
    r := m[..p] + [c] + m[p..];
  }

  /** set_inuse() on the buffer behind a piece of an existing chunk. */
  method SetInuseAt(m: seq<Chunk>, o: nat, ghost at: nat) returns (r: seq<Chunk>, n: nat)
    requires at < |m| && m[at].Holds(o)
    requires forall i :: 0 <= i < at ==> m[i].End() <= o
    ensures r == m[at := Use(m[at])] && n == m[at].length
  {
    var p := 0;
    while !m[p].Holds(o)
      invariant p <= at
      decreases at - p
    {
      p := p + 1;
    }
    r, n := m[p := Use(m[p])], m[p].length;
  }

  /** How far the insertion has come: the chunks of the map from i on are still to be done. */
  ghost predicate Inserted(cs: seq<Chunk>, lo: nat, hi: nat, junk: nat -> byte, ps: seq<Piece>, k: nat,
                           m: seq<Chunk>, done: seq<Chunk>, i: nat, next: nat) {
    && i <= |cs| && k <= |ps| && lo <= next
    && m == done + cs[i..]
    && (forall j :: 0 <= j < |done| ==> done[j].offset < next && done[j].End() <= next)
    && (i < |cs| ==> next < cs[i].End())
    && ps[k..] == PiecesFrom(cs, i, next, hi)
    && Fill(cs, lo, hi, junk) == done + FillFrom(cs, i, next, hi, junk)
  }

  lemma FirstPiece(cs: seq<Chunk>, i: nat, next: nat, hi: nat, junk: nat -> byte)
    requires AllOk(cs) && i <= |cs| && next < hi && (i < |cs| ==> next < cs[i].End())
    ensures var ps := PiecesFrom(cs, i, next, hi);
            && ps != [] && ps[0].offset == next && next < ps[0].End() <= hi
            && ps[0].isNew == (i == |cs| || next < cs[i].offset)
            && (ps[0].isNew ==>
                  && (i < |cs| ==> ps[0].End() <= cs[i].offset)
                  && ps[1..] == PiecesFrom(cs, i, ps[0].End(), hi)
                  && FillFrom(cs, i, next, hi, junk)
                     == [Use(NewChunk(next, ps[0].End(), junk))] + FillFrom(cs, i, ps[0].End(), hi, junk))
            && (!ps[0].isNew ==>
                  && cs[i].Holds(next)
                  && ps[1..] == PiecesFrom(cs, i + 1, cs[i].End(), hi)
                  && FillFrom(cs, i, next, hi, junk)
                     == [Use(cs[i])] + FillFrom(cs, i + 1, cs[i].End(), hi, junk))
  {
    if i == |cs| {
      assert FillFrom(cs, i, hi, hi, junk) == [];
    }
  }

  lemma InsertedStep(cs: seq<Chunk>, lo: nat, hi: nat, junk: nat -> byte, ps: seq<Piece>, k: nat,
                     m: seq<Chunk>, done: seq<Chunk>, i: nat, next: nat, d: Chunk, m': seq<Chunk>, i': nat, next': nat)
    requires Wf(cs) && Inserted(cs, lo, hi, junk, ps, k, m, done, i, next) && k < |ps|
    requires i <= i' <= |cs| && next < next' && d.offset < next' && d.End() <= next' && ps[k + 1..] == PiecesFrom(cs, i', next', hi)
    requires FillFrom(cs, i, next, hi, junk) == [d] + FillFrom(cs, i', next', hi, junk)
    requires i' < |cs| ==> next' <= cs[i'].offset
    requires m' == done + [d] + cs[i'..]
    ensures Inserted(cs, lo, hi, junk, ps, k + 1, m', done + [d], i', next')
  {
    var rest := FillFrom(cs, i', next', hi, junk);
    assert done + ([d] + rest) == (done + [d]) + rest;
  }

  ghost function FirstAfterIndex(cs: seq<Chunk>, i: nat, lo: nat): (f: nat)
    requires i <= |cs|
    ensures i <= f <= |cs| && (forall k :: i <= k < f ==> cs[k].End() <= lo) && (f < |cs| ==> lo < cs[f].End())
    decreases |cs| - i
  {
    if i == |cs| || lo < cs[i].End() then i else FirstAfterIndex(cs, i + 1, lo)
  }

  lemma InsertedStart(cs: seq<Chunk>, lo: nat, hi: nat, junk: nat -> byte, i: nat)
    requires Wf(cs) && lo < hi && i == FirstAfterIndex(cs, 0, lo)
    ensures Inserted(cs, lo, hi, junk, Pieces(cs, lo, hi), 0, cs, cs[..i], i, lo)
  {
    hide FillFrom, PiecesFrom;
    PiecesSkip(cs, 0, i, lo, hi);
    FillSkip(cs, 0, i, lo, hi, junk);
    assert cs == cs[..i] + cs[i..];
    assert Pieces(cs, lo, hi)[0..] == Pieces(cs, lo, hi) && cs[0..i] == cs[..i];
    forall j | 0 <= j < i ensures cs[..i][j].offset < lo && cs[..i][j].End() <= lo {
      assert cs[..i][j] == cs[j];
    }
  }

  /** The piece handled next, and where it goes. */
  lemma InsertedPiece(cs: seq<Chunk>, lo: nat, hi: nat, junk: nat -> byte, ps: seq<Piece>, k: nat,
                      m: seq<Chunk>, done: seq<Chunk>, i: nat, next: nat)
    requires Wf(cs) && Inserted(cs, lo, hi, junk, ps, k, m, done, i, next) && k < |ps|
    ensures var p := ps[k];
            && i <= |cs| && m == done + cs[i..] && p.offset == next && next < p.End() <= hi
            && (forall j :: 0 <= j < |done| ==> m[j].offset < next && m[j].End() <= next)
            && (p.isNew ==>
                  && (forall j :: |done| <= j < |m| ==> next < m[j].offset)
                  && (i < |cs| ==> p.End() <= cs[i].offset)
                  && ps[k + 1..] == PiecesFrom(cs, i, p.End(), hi)
                  && FillFrom(cs, i, next, hi, junk)
                     == [Use(NewChunk(next, p.End(), junk))] + FillFrom(cs, i, p.End(), hi, junk))
            && (!p.isNew ==>
                  && i < |cs| && cs[i].Holds(next) && m[|done|] == cs[i] && m[|done| + 1..] == cs[i + 1..]
                  && (i + 1 < |cs| ==> cs[i].End() <= cs[i + 1].offset)
                  && ps[k + 1..] == PiecesFrom(cs, i + 1, cs[i].End(), hi)
                  && FillFrom(cs, i, next, hi, junk)
                     == [Use(cs[i])] + FillFrom(cs, i + 1, cs[i].End(), hi, junk))
  {
    assert ps[k..] != [];
    FirstPiece(cs, i, next, hi, junk);
    assert ps[k..][0] == ps[k] && ps[k..][1..] == ps[k + 1..];
    forall j | |done| <= j < |m| ensures m[j] == cs[i + (j - |done|)] {
    }
  }

  /** The insertion after one more piece. */
  lemma InsertedNext(cs: seq<Chunk>, lo: nat, hi: nat, junk: nat -> byte, ps: seq<Piece>, k: nat,
                     m: seq<Chunk>, done: seq<Chunk>, i: nat, next: nat)
    requires Wf(cs) && Inserted(cs, lo, hi, junk, ps, k, m, done, i, next) && k < |ps|
    ensures var p, at := ps[k], |done|;
            && at <= |m| && i <= |cs| && p.offset == next && 0 < p.length && p.End() <= hi
            && (forall j :: 0 <= j < at ==> m[j].offset < next && m[j].End() <= next)
            && (p.isNew ==>
                  && (forall j :: at <= j < |m| ==> next < m[j].offset)
                  && var d := Use(NewChunk(next, p.End(), junk));
                  Inserted(cs, lo, hi, junk, ps, k + 1, m[..at] + [d] + m[at..], done + [d], i, p.End()))
            && (!p.isNew ==>
                  && i < |cs| && at < |m| && m[at] == cs[i] && m[at].Holds(next)
                  && Inserted(cs, lo, hi, junk, ps, k + 1, m[at := Use(m[at])], done + [Use(cs[i])], i + 1, cs[i].End()))
  {
    hide Inserted, Wf, PiecesFrom, FillFrom;
    InsertedPiece(cs, lo, hi, junk, ps, k, m, done, i, next);
    var p, at := ps[k], |done|;
    if p.isNew {
      var d := Use(NewChunk(next, p.End(), junk));
      assert m[..at] + [d] + m[at..] == done + [d] + cs[i..];
      InsertedStep(cs, lo, hi, junk, ps, k, m, done, i, next, d, m[..at] + [d] + m[at..], i, p.End());
    } else {
      assert m[at := Use(m[at])] == done + [Use(cs[i])] + cs[i + 1..];
      InsertedStep(cs, lo, hi, junk, ps, k, m, done, i, next, Use(cs[i]), m[at := Use(m[at])], i + 1, cs[i].End());
    }
  }

  lemma InsertedEnd(cs: seq<Chunk>, lo: nat, hi: nat, junk: nat -> byte, ps: seq<Piece>,
                    m: seq<Chunk>, done: seq<Chunk>, i: nat, next: nat)
    requires Wf(cs) && Inserted(cs, lo, hi, junk, ps, |ps|, m, done, i, next)
    ensures m == Fill(cs, lo, hi, junk)
  {
    if next < hi {
      FirstPiece(cs, i, next, hi, junk);
    }
  }

  lemma CountNew(m: seq<Chunk>, at: nat, lo: nat, hi: nat, junk: nat -> byte, others: Stats)
    requires at <= |m| && lo < hi
    ensures var m' := m[..at] + [Use(NewChunk(lo, hi, junk))] + m[at..];
            others.Plus(Tally(m')) == AddChunk(others.Plus(Tally(m)), hi - lo)
  {
    TallyInsert(m, at, Use(NewChunk(lo, hi, junk)));
  }

  lemma CountUse(m: seq<Chunk>, at: nat, others: Stats)
    requires at < |m|
    ensures others.Plus(Tally(m[at := Use(m[at])])) == AddInuse(others.Plus(Tally(m)), m[at].length)
  {
    TallyUpdate(m, at, Use(m[at]));
    UseCounts(m[at]);
  }

  /** Insert the new chunks into the map, all of the pieces being in use by the caller from now on. */
  method InsertNew(cs: seq<Chunk>, lo: nat, hi: nat, junk: nat -> byte, pieces: seq<Piece>, right0: nat,
                   stats0: Stats, ghost others: Stats)
    returns (m: seq<Chunk>, right: nat, stats: Stats)
    requires Wf(cs) && lo < hi && pieces == Pieces(cs, lo, hi)
    requires stats0 == others.Plus(Tally(cs))
    ensures m == Fill(cs, lo, hi, junk)
    ensures stats == others.Plus(Tally(m))
    ensures pieces != []
    ensures hi <= right0 ==> right == right0
    ensures right0 < hi && pieces[|pieces| - 1].isNew ==> right == hi
  {
    hide Inserted, Wf, PiecesFrom, FillFrom, Tally, OfChunk, Stats.Plus, AddChunk, AddInuse;
    m, right, stats := cs, right0, stats0;
    ghost var i := FirstAfterIndex(cs, 0, lo);
    ghost var done, next := cs[..i], lo;
    InsertedStart(cs, lo, hi, junk, i);
    PiecesTile(cs, 0, lo, hi);
    for k := 0 to |pieces|
      invariant Inserted(cs, lo, hi, junk, pieces, k, m, done, i, next)
      invariant stats == others.Plus(Tally(m))
      invariant right == right0 || right <= hi
      invariant right0 <= right && (forall j :: 0 <= j < k && pieces[j].isNew ==> pieces[j].End() <= right)
    {
      InsertedNext(cs, lo, hi, junk, pieces, k, m, done, i, next);
      var p := pieces[k];
      if p.isNew {
        var d := Use(NewChunk(p.offset, p.End(), junk));
        CountNew(m, |done|, p.offset, p.End(), junk, others);
        m := Emplace(m, d, |done|);
        stats := AddChunk(stats, p.length);
        done, next := done + [d], p.End();
        if right < p.End() {
          right := p.End();
        }
      } else {
        CountUse(m, |done|, others);
        var n;
        m, n := SetInuseAt(m, p.offset, |done|);
        stats := AddInuse(stats, n);
        done, next, i := done + [Use(cs[i])], cs[i].End(), i + 1;
      }
    }
    InsertedEnd(cs, lo, hi, junk, pieces, m, done, i, next);
  }

  // ---------------------------------------------------------------- finding the edges of the extent

  lemma LeftStep(cs: seq<Chunk>, lo: nat, hi: nat, lb: nat, left: nat)
    requires Wf(cs) && LeftGood(cs, lo, hi, left) && SplitsAt(cs, lb + 1, left)
    requires cs[lb].End() == left && cs[lb].NeedsFlush()
    ensures LeftGood(cs, lo, hi, cs[lb].offset) && SplitsAt(cs, lb, cs[lb].offset)
  {
    forall o | cs[lb].offset <= o < lo ensures Cached(cs, o) {
      if o < left {
        assert cs[lb].Holds(o);
      }
    }
  }

  /** Look back from the chunk at `lookback` till a gap or a chunk that needs no flush. */
  method LookLeft(cs: seq<Chunk>, lo: nat, hi: nat, lookback: int, left0: nat) returns (left: nat)
    requires Wf(cs) && LeftGood(cs, lo, hi, left0) && LookbackFound(cs, lo, lookback, left0)
    ensures LeftGood(cs, lo, hi, left)
    ensures WaitsBefore(cs, left) <==> Overlooked(cs, lo) && WaitsBefore(cs, lo)
  {
    hide LeftGood;
    left := left0;
    var lb := lookback;
    while 0 <= lb && cs[lb].End() == left && cs[lb].NeedsFlush()
      invariant -1 <= lb < |cs| && LeftGood(cs, lo, hi, left)
      invariant lookback == -1 ==> lb == -1 && left == left0
      invariant lookback != -1 ==> SplitsAt(cs, lb + 1, left)
    {
      LeftStep(cs, lo, hi, lb, left);
      left, lb := cs[lb].offset, lb - 1;
    }
    if lookback != -1 {
      LeftStops(cs, lb, left);
    }
  }

  lemma LeftStops(cs: seq<Chunk>, lb: int, left: nat)
    requires Wf(cs) && -1 <= lb && SplitsAt(cs, lb + 1, left)
    requires lb == -1 || cs[lb].End() != left || !cs[lb].NeedsFlush()
    ensures !WaitsBefore(cs, left)
  {
  }

  lemma RightStep(cs: seq<Chunk>, lo: nat, hi: nat, it: nat, right: nat)
    requires Wf(cs) && RightGood(cs, lo, hi, right) && SplitsAt(cs, it, right)
    requires it < |cs| && cs[it].offset == right && cs[it].NeedsFlush()
    ensures RightGood(cs, lo, hi, cs[it].End()) && SplitsAt(cs, it + 1, cs[it].End())
  {
    forall o | hi <= o < cs[it].End() ensures Cached(cs, o) {
      if right <= o {
        assert cs[it].Holds(o);
      }
    }
  }

  /** Look ahead from the chunk at `start`, likewise. */
  method LookRight(cs: seq<Chunk>, lo: nat, hi: nat, start: nat, right0: nat) returns (right: nat)
    requires Wf(cs) && RightGood(cs, lo, hi, right0) && start <= |cs| && lo < hi
    requires SplitsAt(cs, start, right0) || (start + 1 == |cs| && cs[start].End() <= lo && right0 == hi)
    ensures RightGood(cs, lo, hi, right)
    ensures !WaitsAfter(cs, right)
  {
    hide RightGood;
    right := right0;
    var it := start;
    while it < |cs| && cs[it].offset == right && cs[it].NeedsFlush()
      invariant start <= it <= |cs| && RightGood(cs, lo, hi, right)
      invariant SplitsAt(cs, it, right) || (it == start && it + 1 == |cs| && cs[it].End() <= lo && right == hi)
    {
      RightStep(cs, lo, hi, it, right);
      right, it := cs[it].End(), it + 1;
    }
  }

  /**
    get() and getx(): the pieces for [offset, offset + length), the map with the missing chunks
    added, and the extent around the range.  The extent is cached, has chunk edges at both ends and
    outside the range consists of chunks waiting for a flush.  It cannot be extended to the right;
    it can be extended to the left only where the range starts in a gap between two chunks, right
    after one that waits for a flush.
   */
  method GetX(cs: seq<Chunk>, offset: nat, length: nat, junk: nat -> byte, stats0: Stats, ghost others: Stats)
    returns (pieces: seq<Piece>, m: seq<Chunk>, left: nat, right: nat, stats: Stats)
    requires Wf(cs) && 0 < length && offset + length <= MAX_FILE_SIZE
    requires stats0 == others.Plus(Tally(cs))
    ensures stats == others.Plus(Tally(m))
    ensures pieces == Pieces(cs, offset, offset + length)
    ensures m == Fill(cs, offset, offset + length, junk) && Wf(m)
    ensures LeftGood(cs, offset, offset + length, left) && RightGood(cs, offset, offset + length, right)
    ensures !WaitsAfter(cs, right)
    ensures WaitsBefore(cs, left) <==> Overlooked(cs, offset) && WaitsBefore(cs, offset)
  {
    hide LeftGood, RightGood, LookbackFound;
    var it, lookback;
    pieces, it, lookback, left, right := Collect(cs, offset, length);
    ghost var right0 := right;
    m, right, stats := InsertNew(cs, offset, offset + length, junk, pieces, right, stats0, others);
    FillWf(cs, offset, offset + length, junk);
    TailIsNew(cs, offset, offset + length, it, right0, pieces);
    left := LookLeft(cs, offset, offset + length, lookback, left);
    right := LookRight(cs, offset, offset + length, it, right);
  }

  lemma TailIsNew(cs: seq<Chunk>, lo: nat, hi: nat, it: nat, right: nat, ps: seq<Piece>)
    requires Wf(cs) && lo < hi && it <= |cs| && RightFound(cs, lo, hi, it, right, ps)
    ensures right < hi ==> ps != [] && ps[|ps| - 1].isNew && RightGood(cs, lo, hi, hi) && SplitsAt(cs, it, hi)
    ensures hi <= right ==> RightGood(cs, lo, hi, right)
  {
  }

  /** The look-back the scan leaves out: the extent reported here could start at 0, but starts at 10. */
  lemma LeftEdgeNotMaximal() returns (cs: seq<Chunk>)
    ensures Wf(cs) && Overlooked(cs, 10) && WaitsBefore(cs, 10)
    ensures forall left :: LeftGood(cs, 10, 15, left) && (WaitsBefore(cs, left) <==> Overlooked(cs, 10) && WaitsBefore(cs, 10))
              ==> left == 10
    ensures LeftGood(cs, 10, 15, 0)
  {
    var clean := NewChunk(20, 30, _ => 0);
    var dirty := NewChunk(0, 10, _ => 0);
    dirty := dirty.(mb := dirty.mb.(uptodate := true, dirty := true));
    cs := [dirty, clean];
    assert cs[0].End() <= 10 < cs[1].offset && cs[0].NeedsFlush();
    forall o: nat | o < 10 ensures Cached(cs, o) {
      assert cs[0].Holds(o);
    }
    assert cs[0].offset == 0;
    forall left | LeftGood(cs, 10, 15, left) && WaitsBefore(cs, left) ensures left == 10 {
    }
  }
}
