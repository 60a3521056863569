/** The country filter's statistics (backend/internal/geo-filter-stats.js): a follower of nginx's log
    of blocked requests that survives rotation, and its counters per day and country. */
module GeoStats {
  import opened Wrappers
  import opened ConfigText

  const MAX_READ_BYTES := 64 * 1024 * 1024

  datatype File = File(inode: int, text: string)

  /** A log line that counts: its day (a number, as the day keys compare) and its country. */
  datatype Hit = Hit(day: int, country: string)

  /** What a line says; blank and malformed lines say nothing. */
  type Reader = string -> Option<Hit>

  type Days = map<int, map<string, nat>>

  datatype Stats = Stats(inode: Option<int>, offset: nat, days: Days)

  // ==== the country of an address ====

  datatype Range = Range(first: nat, last: nat, country: string)

  /** Sorted by start and not overlapping, as DB-IP publishes its list. */
  predicate Ordered(list: seq<Range>) {
    && (forall i :: 0 <= i < |list| ==> list[i].first <= list[i].last)
    && forall i, j :: 0 <= i < j < |list| ==> list[i].last < list[j].first
  }

  predicate Covers(r: Range, x: nat) { r.first <= x <= r.last }

  /** Binary search: only a covering range answers, and in an ordered list a covering one is found. */
  method Find(list: seq<Range>, x: nat) returns (r: Option<string>)
    ensures r.Some? ==> exists i :: 0 <= i < |list| && Covers(list[i], x) && list[i].country == r.value
    ensures Ordered(list) ==> forall i :: 0 <= i < |list| && Covers(list[i], x) ==> r == Some(list[i].country)
  {
    var lo, hi := 0, |list| - 1;
    while lo <= hi
      invariant 0 <= lo <= |list| && -1 <= hi < |list|
      invariant Ordered(list) ==> forall i :: 0 <= i < |list| && Covers(list[i], x) ==> lo <= i <= hi
      decreases hi - lo
    {
      var mid := (lo + hi) / 2;
      if x < list[mid].first {
        hi := mid - 1;
      } else if x > list[mid].last {
        lo := mid + 1;
      } else {
        return Some(list[mid].country);
      }
    }
    return None;
  }

  // ==== reading ====

  /** From an offset up to the last newline of what one call reads. */
  function ReadFrom(text: string, offset: nat): (string, nat) {
    if offset >= |text| then ("", |text|)
    else
      var len := if |text| - offset < MAX_READ_BYTES then |text| - offset else MAX_READ_BYTES;
      var buf := text[offset..offset + len];
      var last := LastIndexOf(buf, '\n');
      if last < 0 then ("", offset) else (buf[..last + 1], offset + last + 1)
  }

  datatype Reading = Reading(chunks: seq<string>, inode: Option<int>, offset: nat)

  /** What a collect reads: the rest of the rotated file if it is the one followed so far, then the
      log from the offset. */
  function Readings(cur: Option<File>, prev: Option<File>, st: Stats): Reading {
    if cur.None? then Reading([], st.inode, st.offset)
    else
      var rotated := st.inode.Some? && cur.value.inode != st.inode.value;
      var rest := if rotated && prev.Some? && prev.value.inode == st.inode.value then [ReadFrom(prev.value.text, st.offset).0] else [];
      var offset := if rotated || |cur.value.text| < st.offset then 0 else st.offset;
      var (text, end) := ReadFrom(cur.value.text, offset);
      Reading(rest + [text], Some(cur.value.inode), end)
  }

  // ==== counting ====

  function Get(days: Days, d: int, c: string): nat {
    if d in days && c in days[d] then days[d][c] else 0
  }

  function Counted(days: Days, h: Hit): Days {
    var day := if h.day in days then days[h.day] else map[];
    days[h.day := day[h.country := Get(days, h.day, h.country) + 1]]
  }

  predicate Counts(line: string, cutoff: int, read: Reader) { read(line).Some? && read(line).value.day >= cutoff }

  function CountLines(days: Days, lines: seq<string>, cutoff: int, read: Reader): (Days, nat) {
    if lines == [] then (days, 0)
    else
      var k := |lines| - 1;
      var (before, n) := CountLines(days, lines[..k], cutoff, read);
      if Counts(lines[k], cutoff, read) then (Counted(before, read(lines[k]).value), n + 1) else (before, n)
  }

  /** Days behind the cutoff go. */
  function Retained(days: Days, cutoff: int): Days { map d | d in days && d >= cutoff :: days[d] }

  function Lines(chunks: seq<string>): seq<string> {
    if chunks == [] then [] else Lines(chunks[..|chunks| - 1]) + Split(chunks[|chunks| - 1], '\n')
  }

  function CollectSpec(cur: Option<File>, prev: Option<File>, st: Stats, cutoff: int, read: Reader): (Stats, nat) {
    var r := Readings(cur, prev, st);
    var (days, n) := CountLines(st.days, Lines(r.chunks), cutoff, read);
    (Stats(r.inode, r.offset, Retained(days, cutoff)), n)
  }

  class Collector {
    var stats: Stats

    constructor ()
      ensures stats == Stats(None, 0, map[])
    {
      stats := Stats(None, 0, map[]);
    }

    method Collect(cur: Option<File>, prev: Option<File>, cutoff: int, read: Reader) returns (counted: nat)
      modifies this
      ensures (stats, counted) == CollectSpec(cur, prev, old(stats), cutoff, read)
    {
      var chunks: seq<string> := [];
      var offset, inode := stats.offset, stats.inode;
      if cur.Some? {
        if inode.Some? && cur.value.inode != inode.value {
          if prev.Some? && prev.value.inode == inode.value {
            chunks := chunks + [ReadFrom(prev.value.text, offset).0];
          }
          offset := 0;
        }
        if |cur.value.text| < offset { offset := 0; }
        var (text, end) := ReadFrom(cur.value.text, offset);
        chunks := chunks + [text];
        inode, offset := Some(cur.value.inode), end;
      }
      assert Reading(chunks, inode, offset) == Readings(cur, prev, stats);
      var days;
      days, counted := CountAll(stats.days, chunks, cutoff, read);
      stats := Stats(inode, offset, Retained(days, cutoff));
    }

    method CountAll(start: Days, chunks: seq<string>, cutoff: int, read: Reader) returns (days: Days, counted: nat)
      ensures (days, counted) == CountLines(start, Lines(chunks), cutoff, read)
    {
      days, counted := start, 0;
      for i := 0 to |chunks|
        invariant (days, counted) == CountLines(start, Lines(chunks[..i]), cutoff, read)
      {
        assert chunks[..i + 1][..i] == chunks[..i];
        days, counted := CountText(start, Lines(chunks[..i]), days, counted, chunks[i], cutoff, read);
      }
      assert chunks[..|chunks|] == chunks;
    }

    method CountText(ghost start: Days, ghost before: seq<string>, days0: Days, counted0: nat, text: string, cutoff: int, read: Reader)
      returns (days: Days, counted: nat)
      requires (days0, counted0) == CountLines(start, before, cutoff, read)
      ensures (days, counted) == CountLines(start, before + Split(text, '\n'), cutoff, read)
    {
      days, counted := days0, counted0;
      var lines := Split(text, '\n');
      assert before + lines[..0] == before;
      for j := 0 to |lines|
        invariant (days, counted) == CountLines(start, before + lines[..j], cutoff, read)
      {
        assert (before + lines[..j + 1])[..|before| + j] == before + lines[..j];
        if Counts(lines[j], cutoff, read) {
          days, counted := Counted(days, read(lines[j]).value), counted + 1;
        }
      }
      assert before + lines[..|lines|] == before + lines;
    }
  }
}
