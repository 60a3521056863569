/** Every complete line is counted exactly once: runs of the log, its rotation and the collector. */
module GeoStatsRun {
  import opened Wrappers
  import opened Seqs
  import opened ConfigText
  import opened GeoStats

  /** The log, the rotated log next to it, the saved statistics; and, for the statement only, the text
      of the files the collector has left behind and the last cutoff. */
  datatype Sys = Sys(cur: Option<File>, prev: Option<File>, st: Stats, past: string, cutoff: int)

  /** nginx opens a new log, writes to it, still writes to the rotated one until it reopens; logrotate
      renames; the collector runs with the cutoff of the day. */
  datatype Event = Create(inode: int) | Append(text: string) | AppendRotated(text: string) | Rotate | Collect(cutoff: int)

  function Init(cutoff: int): Sys { Sys(None, None, Stats(None, 0, map[]), "", cutoff) }

  /** The collector follows the log, or it still follows the rotated file. */
  predicate Following(s: Sys) { s.cur.Some? && s.st.inode == Some(s.cur.value.inode) }

  predicate Behind(s: Sys) { !Following(s) && s.prev.Some? && s.st.inode == Some(s.prev.value.inode) }

  function Step(s: Sys, e: Event, read: Reader): Sys {
    match e
    case Create(i) => s.(cur := Some(File(i, "")))
    case Append(t) => if s.cur.Some? then s.(cur := Some(File(s.cur.value.inode, s.cur.value.text + t))) else s
    case AppendRotated(t) => if s.prev.Some? then s.(prev := Some(File(s.prev.value.inode, s.prev.value.text + t))) else s
    case Rotate => s.(prev := s.cur, cur := None, past := if Following(s) then s.past else Written(s))
    case Collect(c) =>
      s.(st := CollectSpec(s.cur, s.prev, s.st, c, read).0, cutoff := c,
         past := if Behind(s) && s.cur.Some? then s.past + s.prev.value.text else s.past)
  }

  /** Empty, or ended by a newline. */
  predicate Ended(text: string) { text == "" || text[|text| - 1] == '\n' }

  /** Everything written to the log so far, file by file. */
  function Written(s: Sys): string {
    s.past + (if Behind(s) then s.prev.value.text else "") + if s.cur.Some? then s.cur.value.text else ""
  }

  /** What a rotation now would leave unread for good, if the collector does not follow the log. */
  function Unseen(s: Sys): string {
    (if Behind(s) && s.st.offset <= |s.prev.value.text| then s.prev.value.text[s.st.offset..] else "")
    + if s.cur.Some? then s.cur.value.text else ""
  }

  /** Whole lines only, as logrotate leaves them. */
  predicate WholeLines(s: Sys) { (s.cur.Some? ==> Ended(s.cur.value.text)) && (Behind(s) ==> Ended(s.prev.value.text)) }

  /** No line of a day that is kept says anything. */
  ghost predicate Silent(text: string, cutoff: int, read: Reader) {
    forall h: Hit :: h.day >= cutoff ==> Occurs(text, h, read) == 0
  }

  /** A log is rotated once a collect has seen it, or when it and what else is unread say nothing; a
      new log does not get the inode of the file followed last; nobody writes to a rotated file that
      is not followed; the collect that moves on finds it ended by a newline and reads its rest in one
      go; days only go by. */
  ghost predicate Allowed(s: Sys, e: Event, read: Reader) {
    match e
    case Create(i) => s.cur.None? && (s.prev.Some? ==> s.prev.value.inode != i) && s.st.inode != Some(i)
    case Append(_) => s.cur.Some?
    case AppendRotated(_) => Behind(s)
    case Rotate => s.cur.Some? && (Following(s) || (WholeLines(s) && Silent(Unseen(s), s.cutoff, read)))
    case Collect(c) =>
      c >= s.cutoff
      && (Behind(s) && s.cur.Some? ==> Ended(s.prev.value.text) && |s.prev.value.text| - s.st.offset <= MAX_READ_BYTES)
  }

  ghost predicate AllowedRun(s: Sys, es: seq<Event>, read: Reader) {
    es == [] || (AllowedRun(s, es[..|es| - 1], read) && Allowed(Run(s, es[..|es| - 1], read), es[|es| - 1], read))
  }

  function Run(s: Sys, es: seq<Event>, read: Reader): Sys {
    if es == [] then s else Step(Run(s, es[..|es| - 1], read), es[|es| - 1], read)
  }

  // ==== counting lines ====

  function Hits(lines: seq<string>, h: Hit, read: Reader): nat {
    if lines == [] then 0 else (if read(lines[0]) == Some(h) then 1 else 0) + Hits(lines[1..], h, read)
  }

  /** How many lines of a text say this. */
  function Occurs(text: string, h: Hit, read: Reader): nat { Hits(Split(text, '\n'), h, read) }

  lemma {:induction false} HitsConcat(a: seq<string>, b: seq<string>, h: Hit, read: Reader)
    ensures Hits(a + b, h, read) == Hits(a, h, read) + Hits(b, h, read)
  {
    if a == [] {
      assert a + b == b;
    } else {
      assert (a + b)[0] == a[0] && (a + b)[1..] == a[1..] + b;
      HitsConcat(a[1..], b, h, read);
    }
  }

  lemma {:induction false} SplitAtNewline(a: string, b: string)
    ensures Split(a + ['\n'] + b, '\n') == Split(a, '\n') + Split(b, '\n')
    decreases |a|
  {
    var i := IndexOf(a, '\n');
    if i == |a| {
      assert a[..i] == a;
      SplitFirst(a, '\n', b);
    } else {
      SplitAtNewline(a[i + 1..], b);
      assert a == a[..i] + ['\n'] + a[i + 1..];
      SplitFurther(a[..i], a[i + 1..], b);
    }
  }

  lemma {:induction false} SplitFurther(x: string, y: string, b: string)
    requires '\n' !in x && Split(y + ['\n'] + b, '\n') == Split(y, '\n') + Split(b, '\n')
    ensures Split((x + ['\n'] + y) + ['\n'] + b, '\n') == Split(x + ['\n'] + y, '\n') + Split(b, '\n')
  {
    var rest := y + ['\n'] + b;
    assert Split(x + ['\n'] + rest, '\n') == [x] + Split(rest, '\n') by { SplitFirst(x, '\n', rest); }
    assert Split(x + ['\n'] + y, '\n') == [x] + Split(y, '\n') by { SplitFirst(x, '\n', y); }
    Regroup(x, y, b);
    Associate([x], Split(y, '\n'), Split(b, '\n'));
  }

  lemma {:induction false} Regroup(x: string, y: string, b: string)
    ensures (x + ['\n'] + y) + ['\n'] + b == x + ['\n'] + (y + ['\n'] + b)
  {
  }

  lemma {:induction false} NothingOccurs(h: Hit, read: Reader)
    requires read("").None?
    ensures Split("", '\n') == [""] && Hits([""], h, read) == 0 && Occurs("", h, read) == 0
  {
    IndexNone("", '\n');
    assert [""][1..] == [];
    assert Hits([], h, read) == 0;
  }

  /** Ended texts add up. */
  lemma {:induction false} OccursConcat(a: string, b: string, h: Hit, read: Reader)
    requires Ended(a) && read("").None?
    ensures Occurs(a + b, h, read) == Occurs(a, h, read) + Occurs(b, h, read)
  {
    NothingOccurs(h, read);
    if a == "" {
      assert a + b == b;
    } else {
      var x := a[..|a| - 1];
      assert a == x + ['\n'] + "" && a + b == x + ['\n'] + b;
      SplitAtNewline(x, b);
      SplitAtNewline(x, "");
      HitsConcat(Split(x, '\n'), Split(b, '\n'), h, read);
      HitsConcat(Split(x, '\n'), [""], h, read);
    }
  }

  lemma {:induction false} CountLinesAdds(days: Days, lines: seq<string>, cutoff: int, read: Reader, h: Hit)
    ensures Get(CountLines(days, lines, cutoff, read).0, h.day, h.country)
      == Get(days, h.day, h.country) + if h.day >= cutoff then Hits(lines, h, read) else 0
  {
    if lines != [] {
      var k := |lines| - 1;
      CountLinesAdds(days, lines[..k], cutoff, read, h);
      assert lines == lines[..k] + [lines[k]];
      HitsConcat(lines[..k], [lines[k]], h, read);
    }
  }

  // ==== reading ====

  predicate Boundary(text: string, k: nat) { k == 0 || (k <= |text| && text[k - 1] == '\n') }

  /** A read takes whole lines from the offset on, and all of them unless it hits the limit. */
  lemma {:induction false} ReadsWholeLines(text: string, offset: nat)
    requires offset <= |text| && Boundary(text, offset)
    ensures var (t, end) := ReadFrom(text, offset);
      && offset <= end <= |text| && t == text[offset..end] && Ended(t) && Boundary(text, end)
      && (|text| - offset <= MAX_READ_BYTES ==> '\n' !in text[end..])
  {
    if offset < |text| {
      var len := if |text| - offset < MAX_READ_BYTES then |text| - offset else MAX_READ_BYTES;
      var buf := text[offset..offset + len];
      var last := LastIndexOf(buf, '\n');
      var end := offset + last + 1;
      assert last >= 0 ==> text[end - 1] == buf[last];
      if |text| - offset <= MAX_READ_BYTES {
        forall i | end <= i < |text| ensures text[i] != '\n' { assert text[i] == buf[i - offset]; }
      }
    }
  }

  // ==== the invariant ====

  /** The text of the followed file; none if the collector follows nothing that is still there. */
  function Tracked(s: Sys): string {
    if Following(s) then s.cur.value.text else if Behind(s) then s.prev.value.text else ""
  }

  /** What of it was counted. */
  function Seen(s: Sys): string { if s.st.offset <= |Tracked(s)| then Tracked(s)[..s.st.offset] else "" }

  predicate Tracks(s: Sys) {
    && (s.cur.Some? && s.prev.Some? ==> s.cur.value.inode != s.prev.value.inode)
    && if Following(s) || Behind(s) then s.st.offset <= |Tracked(s)| && Boundary(Tracked(s), s.st.offset)
       else s.st.inode.None? ==> s.st.offset == 0
  }

  /** Each kept day and country holds the number of lines of the text that say so. */
  ghost predicate Counting(days: Days, cutoff: int, text: string, read: Reader) {
    forall h: Hit :: Get(days, h.day, h.country) == if h.day >= cutoff then Occurs(text, h, read) else 0
  }

  /** What the counters hold: the lines of the files left behind and of the followed one up to the
      offset, of the days that are kept. */
  ghost predicate Counters(s: Sys, read: Reader) { Counting(s.st.days, s.cutoff, s.past + Seen(s), read) }

  ghost predicate Inv(s: Sys, read: Reader) { Tracks(s) && Ended(s.past) && Counters(s, read) }

  lemma {:induction false} InitInv(cutoff: int, read: Reader)
    requires read("").None?
    ensures Inv(Init(cutoff), read)
  {
    forall h: Hit ensures Occurs("" + Seen(Init(cutoff)), h, read) == 0 {
      NothingOccurs(h, read);
      assert "" + Seen(Init(cutoff)) == "";
    }
  }

  lemma {:induction false} QuietStep(s: Sys, e: Event, read: Reader)
    requires Inv(s, read) && Allowed(s, e, read) && !e.Collect? && !e.Rotate?
    ensures Inv(Step(s, e, read), read)
  {
    var t := Step(s, e, read);
    assert t.past == s.past && t.st == s.st && t.cutoff == s.cutoff;
    assert Following(s) == Following(t) && Behind(s) == Behind(t);
    if Following(s) || Behind(s) {
      assert Tracked(t)[..s.st.offset] == Tracked(s)[..s.st.offset];
    }
  }

  lemma {:induction false} RotateStep(s: Sys, read: Reader)
    requires Inv(s, read) && Allowed(s, Rotate, read) && read("").None?
    ensures Inv(Step(s, Rotate, read), read)
  {
    var t := Step(s, Rotate, read);
    if Following(s) {
      assert Behind(t) && Seen(t) == Seen(s);
    } else {
      WrittenSplits(s);
      SilentKeeps(s.st.days, s.cutoff, s.past + Seen(s), Unseen(s), read);
      assert t.past + Seen(t) == s.past + Seen(s) + Unseen(s);
    }
  }

  lemma {:induction false} SilentKeeps(days: Days, cutoff: int, a: string, b: string, read: Reader)
    requires Counting(days, cutoff, a, read) && Ended(a) && Silent(b, cutoff, read) && read("").None?
    ensures Counting(days, cutoff, a + b, read)
  {
    forall h: Hit ensures Get(days, h.day, h.country) == if h.day >= cutoff then Occurs(a + b, h, read) else 0 {
      OccursConcat(a, b, h, read);
    }
  }

  /** Written is what was counted and what a rotation would leave unread. */
  lemma {:induction false} WrittenSplits(s: Sys)
    requires Tracks(s) && Ended(s.past) && s.cur.Some? && !Following(s)
    ensures Written(s) == s.past + Seen(s) + Unseen(s) && Ended(s.past + Seen(s))
    ensures WholeLines(s) ==> Ended(Written(s))
  {
    var cur := s.cur.value.text;
    if Behind(s) {
      Rejoined(s.past, s.prev.value.text, s.st.offset, cur);
      EndedPrefix(s.past, s.prev.value.text, s.st.offset);
      if WholeLines(s) {
        EndedConcat(s.past, s.prev.value.text);
        EndedConcat(s.past + s.prev.value.text, cur);
      }
    } else {
      assert s.past + "" == s.past && "" + cur == cur;
      if WholeLines(s) { EndedConcat(s.past, cur); }
    }
  }

  /** The counters after a collect that read `chunks`. */
  lemma {:induction false} CollectedDays(s: Sys, c: int, read: Reader, h: Hit)
    requires Counters(s, read) && c >= s.cutoff
    ensures Get(CollectSpec(s.cur, s.prev, s.st, c, read).0.days, h.day, h.country)
      == if h.day >= c
         then Occurs(s.past + Seen(s), h, read) + Hits(Lines(Readings(s.cur, s.prev, s.st).chunks), h, read)
         else 0
  {
    var r := Readings(s.cur, s.prev, s.st);
    CollectedAre(s.cur, s.prev, s.st, c, read, r);
    AddedDays(s.st.days, s.cutoff, s.past + Seen(s), Lines(r.chunks), c, read, h);
  }

  lemma {:induction false} CollectedAre(cur: Option<File>, prev: Option<File>, st: Stats, c: int, read: Reader, r: Reading)
    requires r == Readings(cur, prev, st)
    ensures CollectSpec(cur, prev, st, c, read).0.days == Retained(CountLines(st.days, Lines(r.chunks), c, read).0, c)
  {
  }

  lemma {:induction false} AddedDays(days: Days, since: int, text: string, lines: seq<string>, c: int, read: Reader, h: Hit)
    requires Counting(days, since, text, read) && c >= since
    ensures Get(Retained(CountLines(days, lines, c, read).0, c), h.day, h.country)
      == if h.day >= c then Occurs(text, h, read) + Hits(lines, h, read) else 0
  {
    CountLinesAdds(days, lines, c, read, h);
    assert Get(days, h.day, h.country) == if h.day >= since then Occurs(text, h, read) else 0;
  }

  lemma {:induction false} LinesOfTwo(a: string, b: string, h: Hit, read: Reader)
    ensures Hits(Lines([]), h, read) == 0 && Hits(Lines([a]), h, read) == Occurs(a, h, read)
    ensures Hits(Lines([a, b]), h, read) == Occurs(a, h, read) + Occurs(b, h, read)
  {
    assert [a][..0] == [] && [a, b][..1] == [a];
    assert Lines([a]) == Split(a, '\n');
    HitsConcat(Split(a, '\n'), Split(b, '\n'), h, read);
  }

  lemma {:induction false} CollectStep(s: Sys, c: int, read: Reader)
    requires Inv(s, read) && Allowed(s, Collect(c), read) && read("").None?
    ensures Inv(Step(s, Collect(c), read), read)
  {
    if s.cur.None? {
      CollectNothing(s, c, read);
    } else if Behind(s) {
      CollectRotated(s, c, read);
    } else {
      CollectLog(s, c, read);
    }
  }

  lemma {:induction false} CollectNothing(s: Sys, c: int, read: Reader)
    requires Inv(s, read) && Allowed(s, Collect(c), read) && s.cur.None?
    ensures Inv(Step(s, Collect(c), read), read)
  {
    var t := Step(s, Collect(c), read);
    var text := t.past + Seen(t);
    forall h: Hit ensures Get(t.st.days, h.day, h.country) == if h.day >= c then Occurs(text, h, read) else 0 {
      CollectedDays(s, c, read, h);
      LinesOfTwo("", "", h, read);
    }
  }

  /** What a collect adds up to, when its chunks continue the text that was counted before. */
  lemma {:induction false} CollectAdds(s: Sys, c: int, read: Reader, more: string)
    requires Inv(s, read) && c >= s.cutoff && read("").None? && Ended(s.past + Seen(s))
    requires forall h: Hit :: Hits(Lines(Readings(s.cur, s.prev, s.st).chunks), h, read) == Occurs(more, h, read)
    ensures Counting(CollectSpec(s.cur, s.prev, s.st, c, read).0.days, c, s.past + Seen(s) + more, read)
  {
    var days, text := CollectSpec(s.cur, s.prev, s.st, c, read).0.days, s.past + Seen(s);
    forall h: Hit ensures Get(days, h.day, h.country) == if h.day >= c then Occurs(text + more, h, read) else 0 {
      CollectedDays(s, c, read, h);
      OccursConcat(text, more, h, read);
    }
  }

  lemma {:induction false} EndedPrefix(past: string, text: string, k: nat)
    requires Ended(past) && k <= |text| && Boundary(text, k)
    ensures Ended(past + text[..k])
  {
  }

  /** Where the log is read from. */
  function Start(s: Sys): nat { if Following(s) then s.st.offset else 0 }

  lemma {:induction false} LogReading(s: Sys)
    requires Tracks(s) && s.cur.Some? && !Behind(s)
    ensures var text := s.cur.value.text; var o := Start(s); var (chunk, end) := ReadFrom(text, o);
      && o <= |text| && Boundary(text, o) && Seen(s) == text[..o]
      && Readings(s.cur, s.prev, s.st) == Reading([chunk], Some(s.cur.value.inode), end)
  {
    var (chunk, _) := ReadFrom(s.cur.value.text, Start(s));
    assert [] + [chunk] == [chunk];
  }

  lemma {:induction false} CollectLog(s: Sys, c: int, read: Reader)
    requires Inv(s, read) && Allowed(s, Collect(c), read) && s.cur.Some? && !Behind(s) && read("").None?
    ensures Inv(Step(s, Collect(c), read), read)
  {
    var text, o := s.cur.value.text, Start(s);
    LogReading(s);
    ReadsWholeLines(text, o);
    var (chunk, end) := ReadFrom(text, o);
    OneChunk(chunk, read);
    EndedPrefix(s.past, text, o);
    CollectAdds(s, c, read, chunk);
    Extended(s.past, text, o, end);
    WentOn(s, c, read, end);
  }

  lemma {:induction false} OneChunk(chunk: string, read: Reader)
    ensures forall h: Hit :: Hits(Lines([chunk]), h, read) == Occurs(chunk, h, read)
  {
    forall h: Hit ensures Hits(Lines([chunk]), h, read) == Occurs(chunk, h, read) { LinesOfTwo(chunk, "", h, read); }
  }

  lemma {:induction false} TwoChunks(a: string, b: string, read: Reader)
    requires Ended(a) && read("").None?
    ensures forall h: Hit :: Hits(Lines([a, b]), h, read) == Occurs(a + b, h, read)
  {
    forall h: Hit ensures Hits(Lines([a, b]), h, read) == Occurs(a + b, h, read) {
      LinesOfTwo(a, b, h, read);
      OccursConcat(a, b, h, read);
    }
  }

  lemma {:induction false} Extended(past: string, text: string, o: nat, end: nat)
    requires o <= end <= |text|
    ensures past + text[..o] + text[o..end] == past + text[..end]
  {
  }

  lemma {:induction false} WentOn(s: Sys, c: int, read: Reader, end: nat)
    requires Tracks(s) && s.cur.Some? && !Behind(s) && Readings(s.cur, s.prev, s.st).inode == Some(s.cur.value.inode)
    requires Readings(s.cur, s.prev, s.st).offset == end <= |s.cur.value.text| && Boundary(s.cur.value.text, end)
    ensures var t := Step(s, Collect(c), read);
      Tracked(t) == s.cur.value.text && t.st.offset == end && t.past == s.past && Tracks(t)
  {
  }

  lemma {:induction false} RotatedReading(s: Sys)
    requires Tracks(s) && s.cur.Some? && Behind(s)
    requires Ended(s.prev.value.text) && |s.prev.value.text| - s.st.offset <= MAX_READ_BYTES
    ensures var text := s.prev.value.text; var o := s.st.offset; var (chunk, end) := ReadFrom(s.cur.value.text, 0);
      && o <= |text| && Boundary(text, o) && Seen(s) == text[..o]
      && Readings(s.cur, s.prev, s.st) == Reading([text[o..], chunk], Some(s.cur.value.inode), end)
  {
    EndedReadsAll(s.prev.value.text, s.st.offset);
    var (chunk, _) := ReadFrom(s.cur.value.text, 0);
    assert [s.prev.value.text[s.st.offset..]] + [chunk] == [s.prev.value.text[s.st.offset..], chunk];
  }

  lemma {:induction false} CollectRotated(s: Sys, c: int, read: Reader)
    requires Inv(s, read) && Allowed(s, Collect(c), read) && s.cur.Some? && Behind(s) && read("").None?
    ensures Inv(Step(s, Collect(c), read), read)
  {
    var text, o, next := s.prev.value.text, s.st.offset, s.cur.value.text;
    RotatedReading(s);
    ReadsWholeLines(next, 0);
    var (chunk, end) := ReadFrom(next, 0);
    var rest := text[o..];
    EndedSuffix(text, o);
    TwoChunks(rest, chunk, read);
    EndedPrefix(s.past, text, o);
    CollectAdds(s, c, read, rest + chunk);
    Rejoined(s.past, text, o, chunk);
    MovedOn(s, c, read, end);
    EndedConcat(s.past, text);
    assert chunk == next[..end];
  }

  lemma {:induction false} EndedConcat(a: string, b: string)
    requires Ended(a) && Ended(b)
    ensures Ended(a + b)
  {
    if b == "" { assert a + b == a; }
  }

  lemma {:induction false} EndedSuffix(text: string, o: nat)
    requires Ended(text) && o <= |text|
    ensures Ended(text[o..])
  {
  }

  lemma {:induction false} Rejoined(past: string, text: string, o: nat, chunk: string)
    requires o <= |text|
    ensures past + text[..o] + (text[o..] + chunk) == past + text + chunk
  {
  }

  lemma {:induction false} MovedOn(s: Sys, c: int, read: Reader, end: nat)
    requires Tracks(s) && s.cur.Some? && Behind(s) && Readings(s.cur, s.prev, s.st).inode == Some(s.cur.value.inode)
    requires Readings(s.cur, s.prev, s.st).offset == end <= |s.cur.value.text| && Boundary(s.cur.value.text, end)
    ensures var t := Step(s, Collect(c), read);
      Tracked(t) == s.cur.value.text && t.st.offset == end && t.past == s.past + s.prev.value.text && Tracks(t)
  {
  }

  lemma {:induction false} LastIn(text: string, k: nat)
    requires k < |text|
    ensures text[|text| - 1] in text[k..]
  {
    assert text[k..][|text| - 1 - k] == text[|text| - 1];
  }

  lemma {:induction false} EndedReadsAll(text: string, offset: nat)
    requires offset <= |text| && Boundary(text, offset) && Ended(text) && |text| - offset <= MAX_READ_BYTES
    ensures ReadFrom(text, offset) == (text[offset..], |text|)
  {
    ReadsWholeLines(text, offset);
    var end := ReadFrom(text, offset).1;
    if end < |text| {
      LastIn(text, end);
      assert false;
    }
    assert text[offset..|text|] == text[offset..];
  }

  lemma {:induction false} StepInv(s: Sys, e: Event, read: Reader)
    requires Inv(s, read) && Allowed(s, e, read) && read("").None?
    ensures Inv(Step(s, e, read), read)
  {
    if e.Collect? { CollectStep(s, e.cutoff, read); }
    else if e.Rotate? { RotateStep(s, read); }
    else { QuietStep(s, e, read); }
  }

  lemma {:induction false} RunInv(cutoff: int, es: seq<Event>, read: Reader)
    requires AllowedRun(Init(cutoff), es, read) && read("").None?
    ensures Inv(Run(Init(cutoff), es, read), read)
  {
    if es == [] {
      InitInv(cutoff, read);
    } else {
      var k := |es| - 1;
      RunInv(cutoff, es[..k], read);
      var s := Run(Init(cutoff), es[..k], read);
      StepInv(s, es[k], read);
    }
  }

  // ==== exactly once ====

  /** The complete lines of a text. */
  function Complete(text: string): string { text[..LastIndexOf(text, '\n') + 1] }

  /** Rotations, new files and collects neither lose nor repeat anything written; appends add. */
  lemma {:induction false} WrittenIsKept(s: Sys, e: Event, read: Reader)
    requires Inv(s, read) && Allowed(s, e, read)
    ensures var t := Step(s, e, read);
      match e
      case Append(x) => Written(t) == Written(s) + x
      case AppendRotated(x) =>
        Written(t) == s.past + s.prev.value.text + x + if s.cur.Some? then s.cur.value.text else ""
      case _ => Written(t) == Written(s)
  {
    match e
    case Create(_) => assert s.past + "" == s.past;
    case Append(x) =>
    case AppendRotated(x) =>
    case Rotate => assert s.past + "" == s.past && Written(s) + "" == Written(s);
    case Collect(c) => WrittenAtCollect(s, c, read);
  }

  lemma {:induction false} WrittenAtCollect(s: Sys, c: int, read: Reader)
    requires Inv(s, read) && Allowed(s, Collect(c), read)
    ensures Written(Step(s, Collect(c), read)) == Written(s)
  {
    var t := Step(s, Collect(c), read);
    if s.cur.Some? {
      assert t.st.inode == Some(s.cur.value.inode);
      assert Following(t);
    } else {
      assert t.st.inode == s.st.inode;
    }
  }

  lemma {:induction false} CompleteOf(a: string, b: string, k: nat)
    requires Ended(a) && k <= |b| && Boundary(b, k) && '\n' !in b[k..]
    ensures Complete(a + b) == a + b[..k]
  {
    var ab := a + b;
    forall i | |a| + k <= i < |ab| ensures ab[i] != '\n' { assert ab[i] == b[k..][i - |a| - k]; }
    if k > 0 {
      LastIs(ab, '\n', |a| + k - 1);
    } else if a != "" {
      LastIs(ab, '\n', |a| - 1);
    }
    assert LastIndexOf(ab, '\n') + 1 == |a| + k;
    assert ab[..|a| + k] == a + b[..k];
  }

  lemma {:induction false} LastIs(s: string, c: char, i: nat)
    requires i < |s| && s[i] == c && forall j :: i < j < |s| ==> s[j] != c
    ensures LastIndexOf(s, c) == i
  {
  }

  /** Unread bytes of the log at the next collect. */
  function Unread(s: Sys): nat {
    if s.cur.None? then 0
    else if Following(s) && s.st.offset <= |s.cur.value.text| then |s.cur.value.text| - s.st.offset
    else |s.cur.value.text|
  }

  /** After any allowed run that ends with a collect that can read all of the log, each day within
      retention and each country counts exactly the complete lines ever written that say so; a
      partial last line is not among them. */
  lemma {:induction false} ExactlyOnce(cutoff: int, es: seq<Event>, c: int, read: Reader, h: Hit)
    requires AllowedRun(Init(cutoff), es + [Collect(c)], read) && read("").None?
    requires var s := Run(Init(cutoff), es, read); s.cur.Some? && Unread(s) <= MAX_READ_BYTES
    ensures var t := Run(Init(cutoff), es + [Collect(c)], read);
      Get(t.st.days, h.day, h.country) == if h.day >= c then Occurs(Complete(Written(t)), h, read) else 0
  {
    var run := es + [Collect(c)];
    assert run[..|es|] == es;
    RunInv(cutoff, es, read);
    RunInv(cutoff, run, read);
    var s, t := Run(Init(cutoff), es, read), Run(Init(cutoff), run, read);
    ReadToTheEnd(s, c, read);
    AllCounted(t, read);
  }

  lemma {:induction false} AllCounted(t: Sys, read: Reader)
    requires Inv(t, read) && Following(t) && '\n' !in t.cur.value.text[t.st.offset..]
    ensures Counting(t.st.days, t.cutoff, Complete(Written(t)), read)
  {
    CompleteOf(t.past, t.cur.value.text, t.st.offset);
    assert t.past + "" + t.cur.value.text == t.past + t.cur.value.text;
  }

  lemma {:induction false} ReadToTheEnd(s: Sys, c: int, read: Reader)
    requires Inv(s, read) && s.cur.Some? && Unread(s) <= MAX_READ_BYTES
    ensures var t := Step(s, Collect(c), read);
      Following(t) && t.cur == s.cur && t.st.offset <= |s.cur.value.text| && '\n' !in s.cur.value.text[t.st.offset..]
  {
    ReadsWholeLines(s.cur.value.text, if Following(s) then s.st.offset else 0);
  }

  /** Rotation, a new log, and the next collect. */
  function Rotated(s: Sys, i: int, c: int, read: Reader): Sys {
    Step(Step(Step(s, Rotate, read), Create(i), read), Collect(c), read)
  }

  /** Exactly when a rotation between two collects loses nothing: after the next collect the counters
      hold everything written, if and only if the collector follows the log that is rotated, or no line
      that goes unread counts on a day that is kept. */
  lemma {:induction false} RotationExact(s: Sys, i: int, c: int, read: Reader)
    requires Inv(s, read) && s.cur.Some? && i != s.cur.value.inode && c >= s.cutoff && read("").None?
    requires WholeLines(s) && (Following(s) ==> |s.cur.value.text| - s.st.offset <= MAX_READ_BYTES)
    ensures Counting(Rotated(s, i, c, read).st.days, c, Written(s), read) <==> Following(s) || Silent(Unseen(s), c, read)
  {
    if Following(s) {
      FollowedIsCounted(s, i, c, read);
    } else {
      UnseenIsIgnored(s, i, c, read);
      var days := Rotated(s, i, c, read).st.days;
      WrittenSplits(s);
      forall h: Hit ensures Occurs(Written(s), h, read) == Occurs(s.past + Seen(s), h, read) + Occurs(Unseen(s), h, read) {
        OccursConcat(s.past + Seen(s), Unseen(s), h, read);
      }
      SilentIff(days, c, s.past + Seen(s), Unseen(s), Written(s), read);
    }
  }

  lemma {:induction false} SilentIff(days: Days, c: int, seen: string, unseen: string, all: string, read: Reader)
    requires Counting(days, c, seen, read)
    requires forall h: Hit :: Occurs(all, h, read) == Occurs(seen, h, read) + Occurs(unseen, h, read)
    ensures Counting(days, c, all, read) <==> Silent(unseen, c, read)
  {
    if Counting(days, c, all, read) {
      forall h: Hit | h.day >= c ensures Occurs(unseen, h, read) == 0 {
        assert Get(days, h.day, h.country) == Occurs(seen, h, read) && Get(days, h.day, h.country) == Occurs(all, h, read);
      }
    }
    if Silent(unseen, c, read) {
      forall h: Hit ensures Get(days, h.day, h.country) == if h.day >= c then Occurs(all, h, read) else 0 {
        assert Get(days, h.day, h.country) == if h.day >= c then Occurs(seen, h, read) else 0;
      }
    }
  }

  lemma {:induction false} FollowedIsCounted(s: Sys, i: int, c: int, read: Reader)
    requires Inv(s, read) && Following(s) && i != s.cur.value.inode && c >= s.cutoff && read("").None?
    requires WholeLines(s) && |s.cur.value.text| - s.st.offset <= MAX_READ_BYTES
    ensures Counting(Rotated(s, i, c, read).st.days, c, Written(s), read)
  {
    var s1 := Step(s, Rotate, read);
    var s2 := Step(s1, Create(i), read);
    StepInv(s, Rotate, read);
    StepInv(s1, Create(i), read);
    StepInv(s2, Collect(c), read);
    WrittenIsKept(s, Rotate, read);
    WrittenIsKept(s1, Create(i), read);
    WrittenIsKept(s2, Collect(c), read);
    var t := Step(s2, Collect(c), read);
    assert t.past + Seen(t) == Written(t);
  }

  lemma {:induction false} UnseenIsIgnored(s: Sys, i: int, c: int, read: Reader)
    requires Inv(s, read) && s.cur.Some? && !Following(s) && i != s.cur.value.inode && c >= s.cutoff && read("").None?
    ensures Counting(Rotated(s, i, c, read).st.days, c, s.past + Seen(s), read)
  {
    var cur, prev := Some(File(i, "")), s.cur;
    assert Readings(cur, prev, s.st).chunks == [""] by { assert [] + [""] == [""]; }
    NothingAdded(s.st.days, s.cutoff, s.past + Seen(s), c, read);
    assert Rotated(s, i, c, read).st == CollectSpec(cur, prev, s.st, c, read).0;
  }

  lemma {:induction false} NothingAdded(days: Days, since: int, text: string, c: int, read: Reader)
    requires Counting(days, since, text, read) && c >= since && read("").None?
    ensures Counting(Retained(CountLines(days, Lines([""]), c, read).0, c), c, text, read)
  {
    var after := Retained(CountLines(days, Lines([""]), c, read).0, c);
    forall h: Hit ensures Get(after, h.day, h.country) == if h.day >= c then Occurs(text, h, read) else 0 {
      AddedDays(days, since, text, Lines([""]), c, read, h);
      LinesOfTwo("", "", h, read);
      NothingOccurs(h, read);
    }
  }

  lemma {:induction false} OneLine(line: string, h: Hit, read: Reader)
    requires read(line) == Some(h) && '\n' !in line && read("").None?
    ensures Occurs(line + "\n", h, read) == 1 && Ended(line + "\n")
  {
    assert line + "\n" == line + ['\n'] + "";
    SplitFirst(line, '\n', "");
    NothingOccurs(h, read);
    assert [line] + [""] == [line, ""] && [line, ""][1..] == [""];
  }

  /** A log is followed, still empty, rotated away, and the next collect finds none. */
  lemma {:induction false} CollectWithoutLog(s1: Sys, s2: Sys, s0: Sys, read: Reader)
    requires s1 == Step(Init(0), Create(1), read) && s2 == Step(s1, Collect(0), read)
    requires s0 == Step(Step(s2, Rotate, read), Collect(0), read) && read("").None?
    ensures Inv(s0, read) && s0.cur.None? && s0.prev == Some(File(1, "")) && s0.st.inode == Some(1) && s0.cutoff == 0
  {
    InitInv(0, read);
    StepInv(Init(0), Create(1), read);
    StepInv(s1, Collect(0), read);
    StepInv(s2, Rotate, read);
    StepInv(Step(s2, Rotate, read), Collect(0), read);
  }

  /** One rotation between two collects is not enough: the last two of the three collects of this run
      have one between them, yet the line is lost, because the collect before it found no log. */
  lemma {:induction false} UnseenLogIsLost(s1: Sys, s2: Sys, s0: Sys, s3: Sys, s: Sys, line: string, read: Reader, h: Hit)
    requires s1 == Step(Init(0), Create(1), read) && s2 == Step(s1, Collect(0), read)
    requires s0 == Step(Step(s2, Rotate, read), Collect(0), read)
    requires s3 == Step(s0, Create(2), read) && s == Step(s3, Append(line + "\n"), read)
    requires read(line) == Some(h) && '\n' !in line && h.day >= 0 && read("").None?
    ensures !Counting(Rotated(s, 3, 0, read).st.days, 0, Written(s), read)
  {
    CollectWithoutLog(s1, s2, s0, read);
    StepInv(s0, Create(2), read);
    StepInv(s3, Append(line + "\n"), read);
    OneLine(line, h, read);
    assert s.cur.value.text == line + "\n" by { assert "" + (line + "\n") == line + "\n"; }
    assert Unseen(s) == line + "\n" by { assert "" + (line + "\n") == line + "\n"; }
    RotationExact(s, 3, 0, read);
    assert Occurs(Unseen(s), h, read) == 1;
  }
}
