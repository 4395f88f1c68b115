/** The week-by-week slot generation loop of the bulk actions (config/admin_api.py). */
module WeekChunks {
  import opened Common

  /** Days are counted by their ordinal; both ends are included. */
  datatype Chunk = Chunk(first: int, last: int)

  predicate Covers(c: Chunk, day: int) {
    c.first <= day <= c.last
  }

  lemma TilesOneMore(chunks: seq<Chunk>, minDate: int, maxDate: int, current: int, weekEnd: int)
    requires TilesUpTo(chunks, minDate, maxDate, current) && current <= maxDate && weekEnd == Min(current + 6, maxDate)
    ensures TilesUpTo(chunks + [Chunk(current, weekEnd)], minDate, maxDate, weekEnd + 1)
  {
  }

  /** The calls made to generate_slots_for_week, in order. */
  method GenerateWeeks(minDate: int, maxDate: int) returns (chunks: seq<Chunk>)
    ensures Tiles(chunks, minDate, maxDate)
  {
    chunks := [];
    var current := minDate;
    while current <= maxDate
      invariant TilesUpTo(chunks, minDate, maxDate, current)
      decreases maxDate - current
    {
      var weekEnd := Min(current + 6, maxDate);
      TilesOneMore(chunks, minDate, maxDate, current, weekEnd);
      chunks := chunks + [Chunk(current, weekEnd)];
      current := weekEnd + 1;
    }
  }

  /** Consecutive chunks from minDate: all but the last are exactly a week, and they end just before `next`. */
  ghost predicate TilesUpTo(chunks: seq<Chunk>, minDate: int, maxDate: int, next: int) {
    && (chunks == [] ==> next == minDate)
    && (chunks != [] ==> chunks[0].first == minDate && chunks[|chunks| - 1].last == next - 1)
    && (forall i :: 0 <= i < |chunks| ==>
          chunks[i].first <= chunks[i].last <= maxDate && chunks[i].last <= chunks[i].first + 6)
    && (forall i :: 0 <= i < |chunks| - 1 ==> chunks[i + 1].first == chunks[i].last + 1)
    && (forall i :: 0 <= i < |chunks| && chunks[i].last < maxDate ==> chunks[i].last == chunks[i].first + 6)
    && (chunks == [] || next <= maxDate + 1)
  }

  ghost predicate Tiles(chunks: seq<Chunk>, minDate: int, maxDate: int) {
    if minDate > maxDate then chunks == [] else TilesUpTo(chunks, minDate, maxDate, maxDate + 1)
  }

  lemma {:induction false} ChunkStart(chunks: seq<Chunk>, minDate: int, maxDate: int, next: int, i: nat)
    requires TilesUpTo(chunks, minDate, maxDate, next) && i < |chunks|
    ensures chunks[i].first == minDate + 7 * i
  {
    if i > 0 {
      ChunkStart(chunks, minDate, maxDate, next, i - 1);
    }
  }

  /** Every day from minDate to maxDate lies in exactly one chunk, and no other day lies in any. */
  lemma EachDayOnce(chunks: seq<Chunk>, minDate: int, maxDate: int, day: int)
    requires Tiles(chunks, minDate, maxDate)
    ensures minDate <= day <= maxDate <==> exists i :: 0 <= i < |chunks| && Covers(chunks[i], day)
    ensures forall i, j ::
              0 <= i < |chunks| && 0 <= j < |chunks| && Covers(chunks[i], day) && Covers(chunks[j], day) ==> i == j
  {
    if minDate <= maxDate {
      forall i | 0 <= i < |chunks|
        ensures chunks[i].first == minDate + 7 * i
      {
        ChunkStart(chunks, minDate, maxDate, maxDate + 1, i);
      }
      if minDate <= day <= maxDate {
        var i := (day - minDate) / 7;
        var n := |chunks| - 1;
        assert chunks[n].first <= maxDate <= chunks[n].first + 6;
        assert Covers(chunks[i], day);
      }
    }
  }

  /** The number of chunks is the number of days divided by seven, rounded up. */
  lemma ChunkCount(chunks: seq<Chunk>, minDate: int, maxDate: int)
    requires Tiles(chunks, minDate, maxDate)
    ensures |chunks| == if minDate > maxDate then 0 else (maxDate - minDate + 1 + 6) / 7
  {
    if minDate <= maxDate {
      ChunkStart(chunks, minDate, maxDate, maxDate + 1, |chunks| - 1);
    }
  }
}
