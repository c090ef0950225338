/**
  SCAN_ACTION_RELEASE: drop cached bytes of a range that nobody needs any more.

  The scan makes two passes over the map.  The first trims the chunks cut by the edges of the range
  and notes the span of chunks to delete; the second deletes from that span.  Between the passes
  other threads may finish with a chunk, so that it becomes safe to release, but not the reverse.
 */
module Release {
  import opened Chunks
  import opened Counters
  import Get

  // ---------------------------------------------------------------- specification

  predicate Inside(c: Chunk, lo: nat, hi: nat) {
    lo <= c.offset && c.End() <= hi
  }

  /** The range lies strictly in the middle of the chunk: such a chunk is left alone. */
  predicate Straddles(c: Chunk, lo: nat, hi: nat) {
    c.offset < lo && hi < c.End()
  }

  /** First pass on one chunk: a safe chunk cut by one edge of the range loses the part inside. */
  function Trim(c: Chunk, lo: nat, hi: nat): Chunk {
    if !c.SafeToRelease() then c
    else if c.offset < lo < c.End() <= hi then c.(length := lo - c.offset)
    else if lo <= c.offset < hi < c.End() then
      c.(offset := hi, bufferOffset := c.bufferOffset + (hi - c.offset), length := c.End() - hi)
    else c
  }

  ghost predicate Trimmed(cs: seq<Chunk>, m: seq<Chunk>, lo: nat, hi: nat) {
    |m| == |cs| && forall i :: 0 <= i < |cs| ==> m[i] == Trim(cs[i], lo, hi)
  }

  /** m' is m after other threads went on with their chunks while this one held the map. */
  ghost predicate Quieter(m: seq<Chunk>, m': seq<Chunk>) {
    && |m'| == |m|
    && (forall i :: 0 <= i < |m| ==> m[i].SafeToRelease() ==> m'[i] == m[i])
    && (forall i :: 0 <= i < |m| ==>
          && m'[i].offset == m[i].offset && m'[i].length == m[i].length
          && m'[i].bufferOffset == m[i].bufferOffset
          && m'[i].mb.initialOffset == m[i].mb.initialOffset && |m'[i].mb.buffer| == |m[i].mb.buffer|)
  }

  /** Second pass: the safe chunks of the span are gone. */
  function SweepFrom(m: seq<Chunk>, i: nat, b: nat, e: nat): seq<Chunk>
    requires i <= |m|
    decreases |m| - i
  {
    if i == |m| then []
    else if b <= i < e && m[i].SafeToRelease() then SweepFrom(m, i + 1, b, e)
    else [m[i]] + SweepFrom(m, i + 1, b, e)
  }

  /** Bytes cached by the first n chunks. */
  function BytesTo(cs: seq<Chunk>, n: nat): nat
    requires n <= |cs|
  {
    if n == 0 then 0 else BytesTo(cs, n - 1) + cs[n - 1].length
  }

  function Bytes(cs: seq<Chunk>): nat {
    BytesTo(cs, |cs|)
  }

  /** Bytes of the first n chunks that the first pass counts for deletion. */
  function FullTo(cs: seq<Chunk>, n: nat, lo: nat, hi: nat): nat
    requires n <= |cs|
  {
    if n == 0 then 0
    else FullTo(cs, n - 1, lo, hi)
         + if cs[n - 1].SafeToRelease() && Inside(cs[n - 1], lo, hi) then cs[n - 1].length else 0
  }

  // ---------------------------------------------------------------- the two passes

  ghost predicate FirstPassAt(cs: seq<Chunk>, m: seq<Chunk>, lo: nat, hi: nat, it: nat, b: nat, e: nat,
                              full: nat, trim: int) {
    && it <= |cs| == |m|
    && (forall i :: 0 <= i < it ==> m[i] == Trim(cs[i], lo, hi))
    && (forall i :: it <= i < |cs| ==> m[i] == cs[i])
    && (forall i :: 0 <= i < it && cs[i].SafeToRelease() && Inside(cs[i], lo, hi) ==> b <= i < e)
    && (forall i :: b <= i < e && i < |cs| ==> Inside(cs[i], lo, hi))
    && (if b == |cs| then e == |cs| else b < e <= it)
    && full == FullTo(cs, it, lo, hi)
    && trim == BytesTo(cs, it) - BytesTo(m, it)
  }

  lemma {:induction false} Prefix(cs: seq<Chunk>, m: seq<Chunk>, n: nat, lo: nat, hi: nat)
    requires n <= |cs| == |m| && forall i :: 0 <= i < n ==> cs[i] == m[i]
    ensures BytesTo(cs, n) == BytesTo(m, n) && FullTo(cs, n, lo, hi) == FullTo(m, n, lo, hi)
  {
    if n != 0 { Prefix(cs, m, n - 1, lo, hi); }
  }

  /** One chunk further: b and e move as the first pass moves begin_delete and end_delete. */
  lemma FirstPassStep(cs: seq<Chunk>, m: seq<Chunk>, lo: nat, hi: nat, it: nat, b: nat, e: nat, full: nat, trim: int)
    requires Wf(cs) && FirstPassAt(cs, m, lo, hi, it, b, e, full, trim) && it < |cs|
    ensures var c, t := cs[it], Trim(cs[it], lo, hi);
            if c.SafeToRelease() && Inside(c, lo, hi) then
              FirstPassAt(cs, m, lo, hi, it + 1, if b == |cs| then it else b, it + 1, full + c.length, trim)
            else
              FirstPassAt(cs, m[it := t], lo, hi, it + 1, b, e, full, trim + c.length - t.length)
  {
    var t := Trim(cs[it], lo, hi);
    Prefix(m, m[it := t], it, lo, hi);
    assert m[it := cs[it]] == m;
    if b < |cs| {
      assert Inside(cs[b], lo, hi);
    }
  }

  /** Chunks on which the first pass changes nothing and counts nothing. */
  lemma {:induction false} FirstPassSkip(cs: seq<Chunk>, m: seq<Chunk>, lo: nat, hi: nat, it: nat, it': nat,
                                         b: nat, e: nat, full: nat, trim: int)
    requires Wf(cs) && lo < hi && FirstPassAt(cs, m, lo, hi, it, b, e, full, trim) && it <= it' <= |cs|
    requires forall i :: it <= i < it' ==> !cs[i].Meets(lo, hi)
    ensures FirstPassAt(cs, m, lo, hi, it', b, e, full, trim)
    decreases it' - it
  {
    if it < it' {
      FirstPassStep(cs, m, lo, hi, it, b, e, full, trim);
      assert m[it := cs[it]] == m;
      FirstPassSkip(cs, m, lo, hi, it + 1, it', b, e, full, trim);
    }
  }

  lemma CountTrim(m: seq<Chunk>, at: nat, t: Chunk, others: Stats)
    requires at < |m| && t.mb == m[at].mb && t.length <= m[at].length
    requires m[at].SafeToRelease() && m[at].FlagsOk()
    ensures others.Plus(Tally(m[at := t])) == SubTrim(others.Plus(Tally(m)), m[at].mb, m[at].length - t.length)
  {
    TallyUpdate(m, at, t);
  }

  /** One turn of the first pass, on a chunk that holds the byte at `next`. */
  method FirstPassChunk(m: seq<Chunk>, it: nat, next: nat, remaining: nat, b0: nat, e0: nat, full0: nat, trim0: nat,
                        stats0: Stats, ghost cs: seq<Chunk>, ghost lo: nat, ghost others: Stats)
    returns (m': seq<Chunk>, b: nat, e: nat, full: nat, trim: nat, chunkLength: nat, stats: Stats)
    requires Wf(cs) && it < |cs| == |m| && m[it] == cs[it] && cs[it].Holds(next) && 0 < remaining
    requires next == lo || (lo < next == cs[it].offset)
    requires FirstPassAt(cs, m, lo, next + remaining, it, b0, e0, full0, trim0)
    requires m[it].FlagsOk() && stats0 == others.Plus(Tally(m))
    ensures stats == others.Plus(Tally(m'))
    ensures chunkLength == Min(m[it].End() - next, remaining)
    ensures FirstPassAt(cs, m', lo, next + remaining, it + 1, b, e, full, trim)
    ensures |m'| == |m| && forall i :: it < i < |m| ==> m'[i] == m[i]
  {
    hide FirstPassAt, Tally, SubTrim, Stats.Plus;
    FirstPassStep(cs, m, lo, next + remaining, it, b0, e0, full0, trim0);
    Unchanged(m, it);
    m', b, e, full, trim, stats := m, b0, e0, full0, trim0, stats0;
    var bc := m[it];
    if next == bc.offset {
      chunkLength := Min(bc.length, remaining);
      if bc.SafeToRelease() {
        if chunkLength == bc.length {
          full := full + chunkLength;
          if b == |m| {
            b := it;
          }
          e := it + 1;
        } else {
          // Trim from the left: the key changes but not the place in the order.
          m' := m[it := bc.(offset := bc.offset + chunkLength,
                            bufferOffset := bc.bufferOffset + chunkLength,
                            length := bc.length - chunkLength)];
          trim, stats := trim + chunkLength, SubTrim(stats, bc.mb, chunkLength);
          CountTrim(m, it, m'[it], others);
        }
      }
    } else {
      chunkLength := Min(bc.End() - next, remaining);
      if bc.SafeToRelease() && bc.End() == next + chunkLength {
        m' := m[it := bc.(length := next - bc.offset)];
        trim, stats := trim + chunkLength, SubTrim(stats, bc.mb, chunkLength);
        CountTrim(m, it, m'[it], others);
      }
    }
  }

  /** The first pass: trim at the edges of the range, note what to delete and count it. */
  method FirstPass(cs: seq<Chunk>, offset: nat, length: nat, stats0: Stats, ghost others: Stats)
    returns (m: seq<Chunk>, b: nat, e: nat, full: nat, trim: nat, stats: Stats)
    requires Wf(cs) && AllFlags(cs) && 0 < length && stats0 == others.Plus(Tally(cs))
    ensures stats == others.Plus(Tally(m))
    ensures FirstPassAt(cs, m, offset, offset + length, |cs|, b, e, full, trim)
  {
    hide FirstPassAt, Get.LeftGood, Get.LookbackFound, Tally, Stats.Plus;
    ghost var hi := offset + length;
    m, b, e, full, trim, stats := cs, |cs|, |cs|, 0, 0, stats0;
    FirstPassStart(cs, offset, hi);
    var it: nat, lookback, left, gapEnd, only := Get.Locate(cs, offset, offset + length);
    if only {
      FirstPassSkip(cs, m, offset, hi, 0, |cs|, b, e, full, trim);
      return;
    }
    FirstPassSkip(cs, m, offset, hi, 0, it, b, e, full, trim);
    var next, remaining: nat := gapEnd, length - (gapEnd - offset);
    while remaining != 0 && it < |m|
      invariant next + remaining == hi && offset <= next
      invariant it <= |m| == |cs| && FirstPassAt(cs, m, offset, hi, it, b, e, full, trim)
      invariant stats == others.Plus(Tally(m))
      invariant 0 < remaining && it < |m| ==> next < cs[it].End() && (next == offset || next <= cs[it].offset)
      invariant forall i :: it <= i < |cs| ==> m[i] == cs[i]
      invariant remaining == 0 ==> forall i :: it <= i < |cs| ==> hi <= cs[i].offset
      decreases remaining
    {
      var chunkLength;
      if next < m[it].offset {
        chunkLength := Min(m[it].offset - next, remaining);
      } else {
        m, b, e, full, trim, chunkLength, stats :=
          FirstPassChunk(m, it, next, remaining, b, e, full, trim, stats, cs, offset, others);
        it := it + 1;
      }
      remaining, next := remaining - chunkLength, next + chunkLength;
    }
    FirstPassSkip(cs, m, offset, hi, it, |cs|, b, e, full, trim);
  }

  lemma Unchanged(m: seq<Chunk>, i: nat)
    requires i < |m|
    ensures m[i := m[i]] == m
  {
  }

  lemma FirstPassStart(cs: seq<Chunk>, lo: nat, hi: nat)
    ensures FirstPassAt(cs, cs, lo, hi, 0, |cs|, |cs|, 0, 0)
  {
  }

  lemma {:induction false} SweepBefore(m: seq<Chunk>, i: nat, b: nat, e: nat)
    requires i <= b <= |m|
    ensures SweepFrom(m, i, b, e) == m[i..b] + SweepFrom(m, b, b, e)
    decreases b - i
  {
    if i < b {
      SweepBefore(m, i + 1, b, e);
      Get.ConsSlice(m, i, b, SweepFrom(m, b, b, e));
    }
  }

  lemma {:induction false} SweepAfter(m: seq<Chunk>, i: nat, b: nat, e: nat)
    requires e <= i <= |m|
    ensures SweepFrom(m, i, b, e) == m[i..]
    decreases |m| - i
  {
    if i < |m| {
      SweepAfter(m, i + 1, b, e);
    }
  }

  /** Bytes of the chunks that the second pass deletes from the first n. */
  function FreedTo(m: seq<Chunk>, n: nat, b: nat, e: nat): nat
    requires n <= |m|
  {
    if n == 0 then 0
    else FreedTo(m, n - 1, b, e) + if b <= n - 1 < e && m[n - 1].SafeToRelease() then m[n - 1].length else 0
  }

  lemma {:induction false} FreedOutside(m: seq<Chunk>, n: nat, n': nat, b: nat, e: nat)
    requires n <= n' <= |m| && (n' <= b || e <= n)
    ensures FreedTo(m, n', b, e) == FreedTo(m, n, b, e)
    decreases n' - n
  {
    if n < n' { FreedOutside(m, n, n' - 1, b, e); }
  }

  /** The chunks that the second pass takes out of the first n. */
  function DroppedTo(m: seq<Chunk>, n: nat, b: nat, e: nat): seq<Chunk>
    requires n <= |m|
  {
    if n == 0 then []
    else DroppedTo(m, n - 1, b, e) + if b <= n - 1 < e && m[n - 1].SafeToRelease() then [m[n - 1]] else []
  }

  lemma {:induction false} DroppedOutside(m: seq<Chunk>, n: nat, n': nat, b: nat, e: nat)
    requires n <= n' <= |m| && (n' <= b || e <= n)
    ensures DroppedTo(m, n', b, e) == DroppedTo(m, n, b, e)
    decreases n' - n
  {
    if n < n' { DroppedOutside(m, n, n' - 1, b, e); }
  }

  lemma CountErase(r: seq<Chunk>, p: nat, ds: seq<Chunk>)
    requires p < |r|
    ensures TallyDetached(ds + [r[p]]).Plus(Tally(r[..p] + r[p + 1..]))
            == SubChunk(TallyDetached(ds).Plus(Tally(r)), r[p].length)
  {
    TallyErase(r, p);
    DetachedAppend(ds, r[p]);
  }

  lemma SweepNothing(m: seq<Chunk>, b: nat, e: nat)
    ensures FreedTo(m, 0, b, e) == 0 && DroppedTo(m, 0, b, e) == []
  {
  }

  /** The chunk at k, which is at p in what is left of the map, is erased or passed over. */
  lemma SweepStep(m: seq<Chunk>, k: nat, b: nat, e: nat, r: seq<Chunk>, p: nat)
    requires b <= k < e <= |m| && p <= |r| && r[p..] == m[k..]
    ensures p < |r| && r[p] == m[k]
    ensures if m[k].SafeToRelease() then
              var r' := r[..p] + r[p + 1..];
              && r'[..p] == r[..p] && r'[p..] == m[k + 1..] && SweepFrom(m, k, b, e) == SweepFrom(m, k + 1, b, e)
              && FreedTo(m, k + 1, b, e) == FreedTo(m, k, b, e) + m[k].length
              && DroppedTo(m, k + 1, b, e) == DroppedTo(m, k, b, e) + [m[k]]
            else
              && r[p + 1..] == m[k + 1..]
              && r[..p] + SweepFrom(m, k, b, e) == r[..p + 1] + SweepFrom(m, k + 1, b, e)
              && FreedTo(m, k + 1, b, e) == FreedTo(m, k, b, e) && DroppedTo(m, k + 1, b, e) == DroppedTo(m, k, b, e)
  {
    assert |r[p..]| == |m[k..]|;
    assert r[p] == r[p..][0] == m[k];
    assert r[p + 1..] == r[p..][1..] == m[k..][1..] == m[k + 1..];
    if !m[k].SafeToRelease() {
      assert r[..p] + [m[k]] == r[..p + 1];
      assert r[..p] + ([m[k]] + SweepFrom(m, k + 1, b, e)) == r[..p + 1] + SweepFrom(m, k + 1, b, e);
    }
  }

  /** The second pass: erase the chunks of the span that are safe now; ds are the buffers that have left the map. */
  method SecondPass(m: seq<Chunk>, b: nat, e: nat, ds0: seq<Chunk>, stats0: Stats)
    returns (r: seq<Chunk>, freed: nat, ds: seq<Chunk>, stats: Stats)
    requires if b == |m| then e == |m| else b < e <= |m|
    requires stats0 == TallyDetached(ds0).Plus(Tally(m))
    ensures r == SweepFrom(m, 0, b, e) && freed == FreedTo(m, |m|, b, e)
    ensures ds == ds0 + DroppedTo(m, |m|, b, e)
    ensures stats == TallyDetached(ds).Plus(Tally(r))
  {
    hide Tally, TallyDetached, Stats.Plus, SubChunk, SweepFrom, FreedTo, DroppedTo;
    r, freed, ds, stats := m, 0, ds0, stats0;
    SweepNothing(m, b, e);
    var p: nat, k: nat := b, b;
    SweepBefore(m, 0, b, e);
    FreedOutside(m, 0, b, b, e);
    DroppedOutside(m, 0, b, b, e);
    while k < e
      invariant b <= k <= e && p <= |r| && r[p..] == m[k..]
      invariant SweepFrom(m, 0, b, e) == r[..p] + SweepFrom(m, k, b, e)
      invariant freed == FreedTo(m, k, b, e) && ds == ds0 + DroppedTo(m, k, b, e)
      invariant stats == TallyDetached(ds).Plus(Tally(r))
    {
      SweepStep(m, k, b, e, r, p);
      if r[p].SafeToRelease() {
        freed := freed + r[p].length;
        CountErase(r, p, ds);
        stats, ds := SubChunk(stats, r[p].length), ds + [r[p]];
        r := r[..p] + r[p + 1..];
      } else {
        p := p + 1;
      }
      k := k + 1;
    }
    SweepAfter(m, e, b, e);
    assert r == r[..p] + r[p..];
    FreedOutside(m, e, |m|, b, e);
    DroppedOutside(m, e, |m|, b, e);
  }

  // ---------------------------------------------------------------- what a release does

  /** Everything known after both passes: cs before, m and m' before and after the other threads' steps, r at the end. */
  ghost predicate Released(cs: seq<Chunk>, m: seq<Chunk>, m': seq<Chunk>, r: seq<Chunk>, lo: nat, hi: nat,
                           b: nat, e: nat) {
    && Wf(cs) && lo < hi
    && Trimmed(cs, m, lo, hi) && Quieter(m, m')
    && (forall i :: 0 <= i < |cs| && cs[i].SafeToRelease() && Inside(cs[i], lo, hi) ==> b <= i < e)
    && (forall i :: b <= i < e && i < |cs| ==> Inside(cs[i], lo, hi))
    && r == SweepFrom(m', 0, b, e)
  }

  ghost predicate Swept(m: seq<Chunk>, k: nat, b: nat, e: nat)
    requires k < |m|
  {
    b <= k < e && m[k].SafeToRelease()
  }

  lemma {:induction false} SweepKeeps(m: seq<Chunk>, i: nat, b: nat, e: nat, k: nat)
    requires i <= k < |m| && !Swept(m, k, b, e)
    ensures m[k] in SweepFrom(m, i, b, e)
    decreases k - i
  {
    if i < k { SweepKeeps(m, i + 1, b, e, k); }
  }

  lemma {:induction false} SweepOrigin(m: seq<Chunk>, i: nat, b: nat, e: nat, d: Chunk)
    requires i <= |m| && d in SweepFrom(m, i, b, e)
    ensures exists k :: i <= k < |m| && d == m[k] && !Swept(m, k, b, e)
    decreases |m| - i
  {
    if Swept(m, i, b, e) || d != m[i] {
      SweepOrigin(m, i + 1, b, e, d);
    }
  }

  lemma {:induction false} SweepWf(m: seq<Chunk>, i: nat, b: nat, e: nat)
    requires Wf(m) && i <= |m|
    ensures Wf(SweepFrom(m, i, b, e))
    ensures i < |m| ==> StartsAt(SweepFrom(m, i, b, e), m[i].offset)
    decreases |m| - i
  {
    if i < |m| {
      SweepWf(m, i + 1, b, e);
      if !Swept(m, i, b, e) {
        WfCons(m[i], SweepFrom(m, i + 1, b, e));
      }
    }
  }

  lemma MidWf(cs: seq<Chunk>, m: seq<Chunk>, m': seq<Chunk>, lo: nat, hi: nat)
    requires Wf(cs) && Trimmed(cs, m, lo, hi) && Quieter(m, m')
    ensures Wf(m')
  {
    forall i | 0 <= i < |cs| ensures m[i].Ok() && cs[i].offset <= m[i].offset && m[i].End() <= cs[i].End() {
    }
  }

  /** The map stays sorted and disjoint. */
  lemma ReleaseWf(cs: seq<Chunk>, m: seq<Chunk>, m': seq<Chunk>, r: seq<Chunk>, lo: nat, hi: nat, b: nat, e: nat)
    requires Released(cs, m, m', r, lo, hi, b, e)
    ensures Wf(r)
  {
    MidWf(cs, m, m', lo, hi);
    SweepWf(m', 0, b, e);
  }

  /** Where a chunk of the result comes from, and what it was at first. */
  lemma ReleaseOrigin(cs: seq<Chunk>, m: seq<Chunk>, m': seq<Chunk>, r: seq<Chunk>, lo: nat, hi: nat, b: nat, e: nat,
                      i: nat) returns (j: nat)
    requires Released(cs, m, m', r, lo, hi, b, e) && i < |r|
    ensures j < |cs| == |m| == |m'| && r[i] == m'[j] && !Swept(m', j, b, e)
    ensures cs[j].offset <= r[i].offset && r[i].End() <= cs[j].End()
    ensures m[j].offset == r[i].offset && m[j].length == r[i].length
  {
    SweepOrigin(m', 0, b, e, r[i]);
    j :| 0 <= j < |m'| && r[i] == m'[j] && !Swept(m', j, b, e);
    assert m[j] == Trim(cs[j], lo, hi);
  }

  /** A cached byte stays cached, or its chunk is the k-th and was swept or lost the byte to trimming. */
  lemma ReleaseByte(cs: seq<Chunk>, m: seq<Chunk>, m': seq<Chunk>, r: seq<Chunk>, lo: nat, hi: nat, b: nat, e: nat,
                    k: nat, o: nat)
    requires Released(cs, m, m', r, lo, hi, b, e) && k < |cs| && cs[k].Holds(o)
    ensures Cached(r, o) <==> m[k].Holds(o) && !Swept(m', k, b, e)
  {
    if m[k].Holds(o) && !Swept(m', k, b, e) {
      SweepKeeps(m', 0, b, e, k);
      Get.HoldsCached(r, m'[k], o);
    }
    if Cached(r, o) {
      hide Released, SweepFrom;
      var i: nat :| i < |r| && r[i].Holds(o);
      var j := ReleaseOrigin(cs, m, m', r, lo, hi, b, e, i);
      OneHolder(cs, j, k, o) by { ReleasedWf(cs, m, m', r, lo, hi, b, e); }
    }
  }

  lemma ReleasedWf(cs: seq<Chunk>, m: seq<Chunk>, m': seq<Chunk>, r: seq<Chunk>, lo: nat, hi: nat, b: nat, e: nat)
    requires Released(cs, m, m', r, lo, hi, b, e)
    ensures Wf(cs)
  {
  }

  /**
    Every byte of the range whose chunk was safe, and not cut strictly in its middle, is gone.
    A byte is gone only if it is in the range and its chunk, not cut in the middle, was safe either
    at the first pass or, lying wholly inside, at the second.
   */
  lemma ReleaseMeaning(cs: seq<Chunk>, m: seq<Chunk>, m': seq<Chunk>, r: seq<Chunk>, lo: nat, hi: nat, b: nat, e: nat,
                       k: nat, o: nat)
    requires Released(cs, m, m', r, lo, hi, b, e) && k < |cs| && cs[k].Holds(o)
    ensures lo <= o < hi && cs[k].SafeToRelease() && !Straddles(cs[k], lo, hi) ==> !Cached(r, o)
    ensures !Cached(r, o) ==> && lo <= o < hi && !Straddles(cs[k], lo, hi)
                              && (cs[k].SafeToRelease() || (Inside(cs[k], lo, hi) && m'[k].SafeToRelease()))
  {
    ReleaseByte(cs, m, m', r, lo, hi, b, e, k, o);
  }

  /** With no other thread at work the condition is exact. */
  lemma QuietRelease(cs: seq<Chunk>, m: seq<Chunk>, r: seq<Chunk>, lo: nat, hi: nat, b: nat, e: nat, k: nat, o: nat)
    requires Released(cs, m, m, r, lo, hi, b, e) && k < |cs| && cs[k].Holds(o)
    ensures Cached(r, o) <==> !(lo <= o < hi && cs[k].SafeToRelease() && !Straddles(cs[k], lo, hi))
  {
    ReleaseMeaning(cs, m, m, r, lo, hi, b, e, k, o);
  }

  /** No byte appears from nowhere, and one that stays, in a chunk nobody was working on, shows the same value. */
  lemma ReleaseKeepsContent(cs: seq<Chunk>, m: seq<Chunk>, m': seq<Chunk>, r: seq<Chunk>, lo: nat, hi: nat,
                            b: nat, e: nat, i: nat, o: nat)
    requires Released(cs, m, m', r, lo, hi, b, e) && i < |r| && r[i].Holds(o)
    ensures Wf(r) && exists k :: && 0 <= k < |cs| && cs[k].Holds(o)
                                 && (cs[k].SafeToRelease() || m' == m ==> r[i].At(o) == cs[k].At(o))
  {
    ReleaseWf(cs, m, m', r, lo, hi, b, e);
    var k := ReleaseOrigin(cs, m, m', r, lo, hi, b, e, i);
    assert cs[k].Holds(o) && m[k] == Trim(cs[k], lo, hi);
    hide SweepFrom, Wf;
    assert cs[k].SafeToRelease() || m' == m ==> r[i].mb == cs[k].mb;
    KeptByte(cs, k, r[i], o) by { ReleasedWf(cs, m, m', r, lo, hi, b, e); }
  }

  lemma KeptByte(cs: seq<Chunk>, k: nat, d: Chunk, o: nat)
    requires Wf(cs) && k < |cs| && d.Ok() && d.Holds(o) && cs[k].Holds(o)
    ensures d.mb == cs[k].mb ==> d.At(o) == cs[k].At(o)
  {
  }

  // ---------------------------------------------------------------- counting

  function Overlap(c: Chunk, lo: nat, hi: nat): nat {
    if lo < hi && c.Meets(lo, hi) then Min(c.End(), hi) - Max(c.offset, lo) else 0
  }

  function OverlapTo(cs: seq<Chunk>, n: nat, lo: nat, hi: nat): nat
    requires n <= |cs|
  {
    if n == 0 then 0 else OverlapTo(cs, n - 1, lo, hi) + Overlap(cs[n - 1], lo, hi)
  }

  /** Disjoint chunks cannot hold more of the range than its length. */
  lemma {:induction false} OverlapsFit(cs: seq<Chunk>, n: nat, lo: nat, hi: nat)
    requires Wf(cs) && n <= |cs| && lo < hi
    ensures OverlapTo(cs, n, lo, hi) <= hi - lo
    ensures 0 < n ==> OverlapTo(cs, n, lo, hi) <= if cs[n - 1].End() <= lo then 0 else Min(cs[n - 1].End(), hi) - lo
  {
    if n != 0 {
      OverlapsFit(cs, n - 1, lo, hi);
      assert 1 < n ==> cs[n - 2].End() <= cs[n - 1].offset;
    }
  }

  lemma {:induction false} LossFits(cs: seq<Chunk>, m: seq<Chunk>, m': seq<Chunk>, n: nat, lo: nat, hi: nat, b: nat, e: nat)
    requires Wf(cs) && lo < hi && n <= |cs| && Trimmed(cs, m, lo, hi) && Quieter(m, m')
    requires forall i :: b <= i < e && i < |cs| ==> Inside(cs[i], lo, hi)
    ensures BytesTo(cs, n) - BytesTo(m, n) + FreedTo(m', n, b, e) <= OverlapTo(cs, n, lo, hi)
    ensures BytesTo(m', n) == BytesTo(m, n)
  {
    if n != 0 { LossFits(cs, m, m', n - 1, lo, hi, b, e); }
  }

  lemma {:induction false} FreesAtLeast(cs: seq<Chunk>, m: seq<Chunk>, m': seq<Chunk>, n: nat, lo: nat, hi: nat, b: nat, e: nat)
    requires n <= |cs| && Trimmed(cs, m, lo, hi) && Quieter(m, m')
    requires forall i :: 0 <= i < |cs| && cs[i].SafeToRelease() && Inside(cs[i], lo, hi) ==> b <= i < e
    ensures FullTo(cs, n, lo, hi) <= FreedTo(m', n, b, e)
  {
    if n != 0 { FreesAtLeast(cs, m, m', n - 1, lo, hi, b, e); }
  }

  lemma {:induction false} BytesCons(c: Chunk, cs: seq<Chunk>, n: nat)
    requires n <= |cs|
    ensures BytesTo([c] + cs, n + 1) == c.length + BytesTo(cs, n)
  {
    if n != 0 {
      BytesCons(c, cs, n - 1);
    }
  }

  /** Bytes and freed bytes of m from index i on. */
  lemma {:induction false} SweepBytes(m: seq<Chunk>, i: nat, b: nat, e: nat)
    requires i <= |m|
    ensures Bytes(SweepFrom(m, i, b, e)) + (FreedTo(m, |m|, b, e) - FreedTo(m, i, b, e)) == Bytes(m) - BytesTo(m, i)
    decreases |m| - i
  {
    if i < |m| {
      SweepBytes(m, i + 1, b, e);
      if !Swept(m, i, b, e) {
        var rest := SweepFrom(m, i + 1, b, e);
        BytesCons(m[i], rest, |rest|);
      }
    }
  }

  /** The bytes reported equal the drop in cached bytes, never exceed the length, and cover what was counted first. */
  lemma ReleaseCounts(cs: seq<Chunk>, m: seq<Chunk>, m': seq<Chunk>, r: seq<Chunk>, lo: nat, hi: nat, b: nat, e: nat)
    requires Released(cs, m, m', r, lo, hi, b, e)
    ensures var trim, freed := Bytes(cs) - Bytes(m), FreedTo(m', |m'|, b, e);
            && Bytes(r) == Bytes(cs) - (trim + freed)
            && trim + freed <= hi - lo
            && FullTo(cs, |cs|, lo, hi) <= freed
  {
    LossFits(cs, m, m', |cs|, lo, hi, b, e);
    OverlapsFit(cs, |cs|, lo, hi);
    FreesAtLeast(cs, m, m', |cs|, lo, hi, b, e);
    SweepBytes(m', 0, b, e);
  }
}
