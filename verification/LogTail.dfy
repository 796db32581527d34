/** Bounded history on first open and the partial-line carry of the live tail
    (internal/admin/tail_backfill.go, internal/admin/tail.go readLines). The file is the bytes
    appended to it; each tick delivers the bytes that arrived since the previous one. */
module LogTail {
  import opened GoStrings
  import opened Sequences

  const RING_LINES: nat := 500
  const MAX_LINE_BYTES: nat := 1_048_576
  const BACKFILL_BYTES: nat := 8_388_608

  /** The newline-terminated records of a text, and what follows the last newline. */
  function Terminated(s: string): seq<string> {
    var parts := Split(s, '\n');
    parts[..|parts| - 1]
  }

  function Tail(s: string): string {
    var parts := Split(s, '\n');
    parts[|parts| - 1]
  }

  function Truncate(s: string, cap: nat): string {
    if |s| > cap then s[..cap] else s
  }

  /** A record as it is emitted: without its carriage return, cut to the cap. */
  function Clean(record: string, cap: nat): string {
    Truncate(TrimSuffix(record, "\r"), cap)
  }

  function CleanAll(records: seq<string>, cap: nat): (r: seq<string>)
    ensures |r| == |records| && forall i :: 0 <= i < |r| ==> r[i] == Clean(records[i], cap)
  {
    seq(|records|, i requires 0 <= i < |records| => Clean(records[i], cap))
  }

  function IndexByte(s: string, c: char): (r: int)
    ensures -1 <= r < |s|
    ensures r >= 0 ==> s[r] == c && c !in s[..r]
    ensures r < 0 ==> c !in s
  {
    if s == "" then -1
    else if s[0] == c then 0
    else
      var r := IndexByte(s[1..], c);
      if r < 0 then -1 else r + 1
  }

  function LastIndexByte(s: string, c: char): (r: int)
    ensures -1 <= r < |s|
    ensures r >= 0 ==> s[r] == c && c !in s[r + 1..]
    ensures r < 0 ==> c !in s
  {
    if s == "" then -1
    else if s[|s| - 1] == c then |s| - 1
    else LastIndexByte(s[..|s| - 1], c)
  }

  // ---------------------------------------------------------------- splitting

  /** The pieces of two texts put side by side: the last of one joins the first of the other. */
  function Glue(p: seq<string>, q: seq<string>): seq<string>
    requires p != [] && q != []
  {
    p[..|p| - 1] + [p[|p| - 1] + q[0]] + q[1..]
  }

  lemma {:induction false} SplitConcat(a: string, b: string, sep: char)
    ensures Split(a + b, sep) == Glue(Split(a, sep), Split(b, sep))
    decreases |a|
  {
    if a == "" {
      assert a + b == b;
      assert "" + Split(b, sep)[0] == Split(b, sep)[0];
    } else {
      assert (a + b)[1..] == a[1..] + b;
      SplitConcat(a[1..], b, sep);
      GlueHead(a[0], Split(a[1..], sep), Split(b, sep));
    }
  }

  lemma {:induction false} GlueHead(c: char, p: seq<string>, q: seq<string>)
    requires p != [] && q != []
    ensures Glue([""] + p, q) == [""] + Glue(p, q)
    ensures Glue([[c] + p[0]] + p[1..], q) == [[c] + Glue(p, q)[0]] + Glue(p, q)[1..]
  {
    var r := [[c] + p[0]] + p[1..];
    assert ([""] + p)[..|p|] == [""] + p[..|p| - 1];
    if |p| == 1 {
      assert r == [[c] + p[0]];
      assert [c] + p[0] + q[0] == [c] + (p[0] + q[0]);
    } else {
      assert r[..|r| - 1] == [[c] + p[0]] + p[1..|p| - 1];
      assert p[..|p| - 1] == [p[0]] + p[1..|p| - 1];
    }
  }

  lemma {:induction false} SplitPieces(s: string, sep: char)
    ensures forall i :: 0 <= i < |Split(s, sep)| ==> sep !in Split(s, sep)[i]
    ensures sep !in s ==> Split(s, sep) == [s]
  {
    if s == "" {
    } else {
      SplitPieces(s[1..], sep);
      assert s == [s[0]] + s[1..];
    }
  }

  /** Reading on from a carried tail is the same as reading the whole text. */
  lemma {:induction false} TerminatedConcat(a: string, b: string)
    ensures Terminated(a + b) == Terminated(a) + Terminated(Tail(a) + b)
    ensures Tail(a + b) == Tail(Tail(a) + b)
    ensures '\n' !in Tail(a)
  {
    hide Split;
    SplitConcat(a, b, '\n');
    SplitPieces(a, '\n');
    SplitConcat(Tail(a), b, '\n');
    SplitPieces(Tail(a), '\n');
  }

  lemma {:induction false} TerminatedLine(line: string)
    requires '\n' !in line
    ensures Terminated(line + "\n") == [line] && Tail(line + "\n") == ""
    ensures Terminated(line) == [] && Tail(line) == line
  {
    SplitPieces(line, '\n');
    SplitConcat(line, "\n", '\n');
    assert Split("\n", '\n') == [""] + Split("", '\n');
    assert line + "" == line;
  }

  lemma {:induction false} TerminatedSnoc(done: string, line: string)
    requires Tail(done) == "" && '\n' !in line
    ensures Terminated(done + (line + "\n")) == Terminated(done) + [line] && Tail(done + (line + "\n")) == ""
    ensures Terminated(done + line) == Terminated(done) && Tail(done + line) == line
  {
    hide Split;
    TerminatedConcat(done, line + "\n");
    TerminatedConcat(done, line);
    TerminatedLine(line);
    assert "" + (line + "\n") == line + "\n" && "" + line == line;
  }

  // ---------------------------------------------------------------- live ticks

  datatype Read = Read(emitted: seq<string>, carry: string)

  lemma {:induction false} NewlineSuffix(line: string)
    requires '\n' !in line
    ensures !HasSuffix(line, "\n") && HasSuffix(line + "\n", "\n") && TrimSuffix(line + "\n", "\n") == line
  {
    assert line != "" ==> line[|line| - 1..] == [line[|line| - 1]];
  }

  /** bufio.Reader.ReadString('\n') on the bytes left: `piece` is the chunk without its newline. */
  method ReadString(rest: string) returns (chunk: string, rest': string, atEof: bool, ghost piece: string)
    ensures rest == chunk + rest' && '\n' !in piece
    ensures atEof ==> chunk == piece && rest' == ""
    ensures !atEof ==> chunk == piece + "\n"
  {
    var nl := IndexByte(rest, '\n');
    atEof := nl < 0;
    chunk := if atEof then rest else rest[..nl + 1];
    rest' := rest[|chunk|..];
    piece := if atEof then chunk else chunk[..nl];
  }

  /** One tick: every completed record is emitted, an overlong fragment is cut and flushed. */
  function TickRead(tick: string, carry: string, cap: nat): Read {
    if tick == "" then Read([], carry)
    else
      var all := carry + tick;
      var lines := CleanAll(Terminated(all), cap);
      if |Tail(all)| > cap then Read(lines + [Tail(all)[..cap]], "") else Read(lines, Tail(all))
  }

  method ReadLines(tick: string, carry: string, cap: nat) returns (emitted: seq<string>, partial: string)
    requires '\n' !in carry
    ensures Read(emitted, partial) == TickRead(tick, carry, cap)
    ensures '\n' !in partial
  {
    hide Split, Clean, Terminated, Tail, HasSuffix, TrimSuffix, Truncate;
    emitted, partial := [], carry;
    var rest, atEof := tick, false;
    ghost var done := "";
    TerminatedLine("");
    TerminatedSnoc("", carry);
    while !atEof
      invariant '\n' !in partial && carry + tick == done + (partial + rest) && Tail(done) == ""
      invariant emitted == CleanAll(Terminated(done), cap)
      invariant done == "" ==> partial == carry && rest == tick
      invariant done != "" ==> partial == "" && tick != ""
      invariant atEof ==> rest == "" && (done == "" ==> tick == "")
      decreases !atEof, |rest|
    {
      var chunk, more, eof;
      ghost var piece;
      ghost var before := partial;
      chunk, more, eof, piece := ReadString(rest);
      TerminatedSnoc(done, partial + piece);
      NewlineSuffix(partial + piece);
      assert carry + tick == done + (partial + chunk) + more;
      if |chunk| > 0 {
        partial := partial + chunk;
        assert partial == if eof then before + piece else (before + piece) + "\n";
        assert more == "" ==> done + partial + more == done + partial;
        if |partial| > cap && !HasSuffix(partial, "\n") {
          return emitted + [partial[..cap]], "";
        }
        if HasSuffix(partial, "\n") {
          emitted := emitted + [Clean(TrimSuffix(partial, "\n"), cap)];
          done := done + partial;
          partial := "";
        } else {
          return;
        }
      }
      rest, atEof := more, eof;
    }
    assert partial + rest == partial && done + "" == done;
  }

  // ---------------------------------------------------------------- first open

  datatype History = History(lines: seq<string>, partial: string, size: nat)

  /** The part of the window that starts at a line boundary. */
  function Aligned(file: string, start: nat): string
    requires start <= |file|
  {
    var window := file[start..];
    if start == 0 || file[start - 1] == '\n' then window
    else
      var newline := IndexByte(window, '\n');
      if newline < 0 then "" else window[newline + 1..]
  }

  function WindowStart(size: nat, maxBytes: nat): nat {
    if size > maxBytes then size - maxBytes else 0
  }

  function Backfill(file: string, maxLines: int, maxBytes: int, cap: nat): History {
    if file == "" || maxLines <= 0 || maxBytes <= 0 then History([], "", |file|)
    else
      var window := Aligned(file, WindowStart(|file|, maxBytes));
      History(LastN(CleanAll(Terminated(window), cap), maxLines), Truncate(Tail(window), cap), |file|)
  }

  lemma {:induction false} CompletePart(window: string, last: nat)
    requires last < |window| && window[last] == '\n' && '\n' !in window[last + 1..]
    ensures Terminated(window) == Split(window[..last], '\n') && Tail(window) == window[last + 1..]
  {
    var before, after := window[..last], window[last + 1..];
    assert window == before + ("\n" + after);
    SplitConcat(before, "\n" + after, '\n');
    SplitPieces(after, '\n');
    assert ("\n" + after)[1..] == after;
    assert Split("\n" + after, '\n') == ["", after];
    var p := Split(before, '\n');
    assert p[|p| - 1] + "" == p[|p| - 1];
    assert Glue(p, ["", after]) == p + [after];
  }

  method ReadInitialBackfill(file: string, maxLines: int, maxBytes: int, cap: nat) returns (h: History)
    ensures h == Backfill(file, maxLines, maxBytes, cap)
  {
    hide Split, Clean, LastN, Truncate, Terminated, Tail;
    var size := |file|;
    if size == 0 || maxLines <= 0 || maxBytes <= 0 {
      return History([], "", size);
    }
    var start := size - maxBytes;
    if start < 0 {
      start := 0;
    }
    var window := file[start..];
    TerminatedLine("");
    if start > 0 {
      if file[start - 1] != '\n' {
        var newline := IndexByte(window, '\n');
        if newline < 0 {
          assert Aligned(file, start) == "";
          EmptyWindow(maxLines, cap);
          return History([], "", size);
        }
        window := window[newline + 1..];
      }
    }
    assert window == Aligned(file, start);
    h := WindowHistory(window, maxLines, size, cap);
  }

  lemma {:induction false} EmptyWindow(maxLines: nat, cap: nat)
    ensures LastN(CleanAll(Terminated(""), cap), maxLines) == [] && Truncate(Tail(""), cap) == ""
  {
    TerminatedLine("");
  }

  /** The complete records of an aligned window, newest `maxLines` of them, and its partial line. */
  method WindowHistory(window: string, maxLines: nat, size: nat, cap: nat) returns (h: History)
    requires maxLines > 0
    ensures h == History(LastN(CleanAll(Terminated(window), cap), maxLines), Truncate(Tail(window), cap), size)
  {
    hide Split, Clean, Truncate, Terminated, Tail, LastN, HasSuffix;
    var complete, partial := CutPartial(window);
    partial := Truncate(partial, cap);
    if |complete| == 0 {
      NoRecords(maxLines, cap);
      return History([], partial, size);
    }
    complete := TrimSuffix(complete, "\n");
    var lines := CleanRecords(Split(complete, '\n'), maxLines, cap);
    h := History(lines, partial, size);
  }

  lemma {:induction false} NoRecords(maxLines: nat, cap: nat)
    ensures LastN(CleanAll([], cap), maxLines) == []
  {
  }

  /** Everything up to the last newline, and what follows it. */
  method CutPartial(window: string) returns (complete: string, partial: string)
    ensures partial == Tail(window)
    ensures if complete == "" then Terminated(window) == []
            else Terminated(window) == Split(TrimSuffix(complete, "\n"), '\n')
  {
    hide Split, Terminated, Tail;
    complete, partial := window, "";
    if |window| > 0 && window[|window| - 1] != '\n' {
      var lastNewline := LastIndexByte(window, '\n');
      if lastNewline < 0 {
        TerminatedLine(window);
        partial, complete := window, "";
      } else {
        CompletePart(window, lastNewline);
        partial, complete := window[lastNewline + 1..], window[..lastNewline + 1];
        TrimNewlineAt(window, lastNewline);
      }
    } else if |window| > 0 {
      CompletePart(window, |window| - 1);
      TrimNewlineAt(window, |window| - 1);
      assert window[..|window|] == window;
    } else {
      TerminatedLine("");
    }
  }

  lemma {:induction false} TrimNewlineAt(s: string, k: nat)
    requires k < |s| && s[k] == '\n'
    ensures TrimSuffix(s[..k + 1], "\n") == s[..k]
  {
  }

  method CleanRecords(all: seq<string>, maxLines: nat, cap: nat) returns (lines: seq<string>)
    ensures lines == LastN(CleanAll(all, cap), maxLines)
  {
    hide Clean;
    var records := all;
    if |records| > maxLines {
      records := records[|records| - maxLines..];
    }
    lines := [];
    for i := 0 to |records|
      invariant lines == CleanAll(records[..i], cap)
    {
      lines := lines + [Clean(records[i], cap)];
    }
    assert records[..|records|] == records;
  }

  // ---------------------------------------------------------------- hand-over

  function Flat(ticks: seq<string>): string {
    if ticks == [] then "" else ticks[0] + Flat(ticks[1..])
  }

  /** All lines the live loop emits over a run of ticks, and the carry it ends with. */
  function Replay(ticks: seq<string>, carry: string, cap: nat): Read {
    if ticks == [] then Read([], carry)
    else
      var first := TickRead(ticks[0], carry, cap);
      var later := Replay(ticks[1..], first.carry, cap);
      Read(first.emitted + later.emitted, later.carry)
  }

  ghost predicate AllWithin(pieces: seq<string>, cap: nat) {
    forall i :: 0 <= i < |pieces| ==> |pieces[i]| <= cap
  }

  /** Every record, and the unfinished one, fits the cap. */
  ghost predicate FitsCap(s: string, cap: nat) {
    AllWithin(Split(s, '\n'), cap)
  }

  lemma {:induction false} GlueWithin(p: seq<string>, q: seq<string>, cap: nat)
    requires p != [] && q != [] && AllWithin(Glue(p, q), cap)
    ensures AllWithin(p, cap) && AllWithin(Glue([p[|p| - 1]], q), cap)
  {
    var all := Glue(p, q);
    assert all[|p| - 1] == p[|p| - 1] + q[0];
    forall i | 0 <= i < |p| ensures |p[i]| <= cap {
      if i < |p| - 1 { assert all[i] == p[i]; }
    }
    var short := Glue([p[|p| - 1]], q);
    forall i | 0 <= i < |short| ensures |short[i]| <= cap {
      assert short[i] == all[|p| - 1 + i];
    }
  }

  lemma {:induction false} FitsCapConcat(a: string, b: string, cap: nat)
    requires FitsCap(a + b, cap)
    ensures FitsCap(a, cap) && FitsCap(Tail(a) + b, cap)
  {
    hide Split, Glue, AllWithin;
    SplitConcat(a, b, '\n');
    SplitPieces(a, '\n');
    SplitConcat(Tail(a), b, '\n');
    SplitPieces(Tail(a), '\n');
    GlueWithin(Split(a, '\n'), Split(b, '\n'), cap);
  }

  lemma {:induction false} FitsCapParts(s: string, cap: nat)
    requires FitsCap(s, cap)
    ensures |Tail(s)| <= cap
    ensures forall i :: 0 <= i < |Terminated(s)| ==> Clean(Terminated(s)[i], cap) == TrimSuffix(Terminated(s)[i], "\r")
  {
    hide Split;
    var p := Split(s, '\n');
    assert forall i :: 0 <= i < |Terminated(s)| ==> Terminated(s)[i] == p[i];
  }

  /** Whatever way the bytes are cut into ticks, the live loop emits the records of the bytes. */
  lemma {:induction false} ReplayIsExact(ticks: seq<string>, carry: string, cap: nat)
    requires '\n' !in carry && FitsCap(carry + Flat(ticks), cap)
    ensures
      var all := carry + Flat(ticks);
      Replay(ticks, carry, cap) == Read(CleanAll(Terminated(all), cap), Tail(all))
    decreases |ticks|
  {
    hide Split, Clean, Terminated, Tail, FitsCap;
    TerminatedLine(carry);
    if ticks == [] {
      assert carry + "" == carry;
    } else {
      var a, b := carry + ticks[0], Flat(ticks[1..]);
      assert carry + Flat(ticks) == a + b;
      FitsCapConcat(a, b, cap);
      FitsCapParts(a, cap);
      TerminatedConcat(a, b);
      if ticks[0] == "" {
        assert a == carry;
      }
      ReplayIsExact(ticks[1..], Tail(a), cap);
    }
  }

  /** A line starts at or after the window start. */
  predicate HasBoundary(file: string, start: nat)
    requires start <= |file|
  {
    start == 0 || file[start - 1] == '\n' || '\n' in file[start..]
  }

  /** The kept window is the file from the first line boundary at or after the window start, or nothing
      when there is none. */
  lemma {:induction false} AlignedIsSuffix(file: string, start: nat)
    requires start <= |file|
    ensures !HasBoundary(file, start) ==> Aligned(file, start) == ""
    ensures
      var kept := Aligned(file, start);
      var cut := |file| - |kept|;
      && start <= cut && kept == file[cut..]
      && (HasBoundary(file, start) ==>
            && (cut == 0 || file[cut - 1] == '\n')
            && (start < cut ==> file[start - 1] != '\n' && '\n' !in file[start..cut - 1]))
  {
    hide IndexByte;
    if start > 0 && file[start - 1] != '\n' && '\n' in file[start..] {
      var window := file[start..];
      var newline := IndexByte(window, '\n');
      assert window[..newline] == file[start..start + newline];
      assert window[newline + 1..] == file[start + newline + 1..];
      assert file[start + newline] == window[newline];
    }
  }

  lemma {:induction false} TailAfterNewline(head: string)
    requires head == "" || head[|head| - 1] == '\n'
    ensures Tail(head) == ""
  {
    if head == "" {
      TerminatedLine("");
    } else {
      CompletePart(head, |head| - 1);
    }
  }

  lemma {:induction false} LongRunBreaksCap(s: string, start: nat, cap: nat)
    requires start <= |s| && |s| - start > cap && '\n' !in s[start..]
    ensures !FitsCap(s, cap)
  {
    var head, run := s[..start], s[start..];
    assert s == head + run;
    SplitConcat(head, run, '\n');
    SplitPieces(run, '\n');
    var p := Split(head, '\n');
    assert Glue(p, [run])[|p| - 1] == p[|p| - 1] + run;
  }

  /** What the first open returns, in terms of the whole file. */
  lemma {:induction false} BackfillOfFile(file: string, maxLines: nat, maxBytes: nat, cap: nat) returns (head: string)
    requires 0 < maxLines && cap < maxBytes && FitsCap(file, cap)
    ensures
      var window := Aligned(file, WindowStart(|file|, maxBytes));
      && Terminated(file) == Terminated(head) + Terminated(window)
      && Backfill(file, maxLines, maxBytes, cap)
         == History(LastN(CleanAll(Terminated(window), cap), maxLines), Tail(file), |file|)
      && '\n' !in Tail(file)
  {
    hide Split, Clean, Terminated, Tail, FitsCap, Aligned, IndexByte, CleanAll, LastN, Backfill;
    var start := WindowStart(|file|, maxBytes);
    var window := Aligned(file, start);
    WindowHasBoundary(file, start, cap, maxBytes);
    AlignedIsSuffix(file, start);
    head := file[..|file| - |window|];
    assert file == head + window;
    TailAfterNewline(head);
    TerminatedConcat(head, window);
    assert "" + window == window;
    FitsCapParts(file, cap);
    TerminatedConcat(file, "");
    BackfillOfWindow(file, maxLines, maxBytes, cap);
  }

  /** An empty file needs no case of its own. */
  lemma {:induction false} BackfillOfWindow(file: string, maxLines: nat, maxBytes: nat, cap: nat)
    requires 0 < maxLines && 0 < maxBytes
    ensures
      var window := Aligned(file, WindowStart(|file|, maxBytes));
      Backfill(file, maxLines, maxBytes, cap)
        == History(LastN(CleanAll(Terminated(window), cap), maxLines), Truncate(Tail(window), cap), |file|)
  {
    hide Split, Clean, Terminated, Tail, CleanAll, LastN;
    if file == "" {
      EmptyWindow(maxLines, cap);
      TerminatedLine("");
    }
  }

  /** History followed by the live tail is exactly the tail of the file's lines: the history is the
      newest lines that start inside the window, and from there on every line comes once, whole, and
      however the later bytes are cut into ticks. */
  lemma {:induction false} HistoryThenTailIsExact(
    file: string, ticks: seq<string>, maxLines: nat, maxBytes: nat, cap: nat)
    requires 0 < maxLines && cap < maxBytes
    requires FitsCap(file + Flat(ticks), cap)
    ensures
      var h := Backfill(file, maxLines, maxBytes, cap);
      var live := Replay(ticks, h.partial, cap);
      var all := file + Flat(ticks);
      var lines := CleanAll(Terminated(all), cap);
      var window := Aligned(file, if |file| > maxBytes then |file| - maxBytes else 0);
      && h.size == |file| && |Terminated(window)| <= |Terminated(file)|
      && live.carry == Tail(all)
      && lines == CleanAll(Terminated(file), cap) + live.emitted
      && h.lines == LastN(LastN(CleanAll(Terminated(file), cap), |Terminated(window)|), maxLines)
      && h.lines + live.emitted == LastN(lines, |h.lines| + |live.emitted|)
  {
    hide Split, Clean, Terminated, Tail, FitsCap, Aligned, Backfill, CleanAll, LastN, Replay, Flat;
    FitsCapConcat(file, Flat(ticks), cap);
    var head := BackfillOfFile(file, maxLines, maxBytes, cap);
    var window := Aligned(file, WindowStart(|file|, maxBytes));
    var later := Terminated(Tail(file) + Flat(ticks));
    TerminatedConcat(file, Flat(ticks));
    ReplayIsExact(ticks, Tail(file), cap);
    CleanAllConcat(Terminated(head), Terminated(window), cap);
    CleanAllConcat(Terminated(file), later, cap);
    LastNConcat(CleanAll(Terminated(head), cap), CleanAll(Terminated(window), cap), CleanAll(later, cap), maxLines);
  }

  lemma {:induction false} WindowHasBoundary(file: string, start: nat, cap: nat, maxBytes: nat)
    requires FitsCap(file, cap) && cap < maxBytes && start == WindowStart(|file|, maxBytes)
    ensures start <= |file| && HasBoundary(file, start)
  {
    if start > 0 && '\n' !in file[start..] {
      LongRunBreaksCap(file, start, cap);
    }
  }

  lemma {:induction false} CleanAllConcat(a: seq<string>, b: seq<string>, cap: nat)
    ensures CleanAll(a + b, cap) == CleanAll(a, cap) + CleanAll(b, cap)
  {
  }

  /** Cutting a stream right before the newline of a record that exceeds the cap adds a line: for
      terminated records the cap is exactly what makes the tail independent of how ticks fall. */
  lemma {:induction false} OverlongRecordDependsOnTicks(before: string, record: string, after: string, cap: nat)
    requires Tail(before) == "" && '\n' !in record && |record| > cap
    ensures
      var one := Replay([before + record + ("\n" + after)], "", cap);
      var two := Replay([before + record, "\n" + after], "", cap);
      |two.emitted| == |one.emitted| + 1
  {
    hide Split, Clean, Terminated, Tail;
    var a, b := before + record, "\n" + after;
    TerminatedLine("");
    TerminatedSnoc(before, record);
    TerminatedConcat(a, b);
    TerminatedConcat(record, b);
    assert "" + a == a && "" + (a + b) == a + b && "" + b == b;
    var one := TickRead(a + b, "", cap);
    var first := TickRead(a, "", cap);
    var second := TickRead(b, "", cap);
    TwoTicks(a, b, cap);
    OneTick(a + b, cap);
    SameCount(record, after);
    assert |first.emitted| == |Terminated(before)| + 1 && first.carry == "";
    assert Terminated(a + b) == Terminated(a) + Terminated(record + b);
  }

  lemma {:induction false} OneTick(a: string, cap: nat)
    ensures Replay([a], "", cap).emitted == TickRead(a, "", cap).emitted
  {
    assert Replay([a][1..], TickRead(a, "", cap).carry, cap).emitted == [];
  }

  lemma {:induction false} TwoTicks(a: string, b: string, cap: nat)
    requires TickRead(a, "", cap).carry == ""
    ensures Replay([a, b], "", cap).emitted == TickRead(a, "", cap).emitted + TickRead(b, "", cap).emitted
  {
    assert [a, b][1..] == [b];
    OneTick(b, cap);
  }

  /** A line feed in front of `after` ends one record, whatever stands before it on the line. */
  lemma {:induction false} SameCount(record: string, after: string)
    requires '\n' !in record
    ensures |Terminated(record + ("\n" + after))| == |Terminated("\n" + after)|
    ensures Tail(record + ("\n" + after)) == Tail("\n" + after)
  {
    SplitConcat(record, "\n" + after, '\n');
    SplitPieces(record, '\n');
    assert ("\n" + after)[1..] == after;
    assert Split("\n" + after, '\n') == [""] + Split(after, '\n');
    var q := Split("\n" + after, '\n');
    assert Glue([record], q) == [record + q[0]] + q[1..];
  }

  // ---------------------------------------------------------------- any input

  lemma {:induction false} CleanWithin(records: seq<string>, cap: nat)
    ensures AllWithin(CleanAll(records, cap), cap)
  {
  }

  /** On any input no line that goes out, and no fragment kept for later, is longer than the cap. */
  lemma {:induction false} NothingExceedsCap(
    file: string, ticks: seq<string>, carry: string, maxLines: int, maxBytes: int, cap: nat)
    requires |carry| <= cap
    ensures AllWithin(Replay(ticks, carry, cap).emitted, cap) && |Replay(ticks, carry, cap).carry| <= cap
    ensures
      var h := Backfill(file, maxLines, maxBytes, cap);
      AllWithin(h.lines, cap) && |h.partial| <= cap && (maxLines > 0 ==> |h.lines| <= maxLines)
    decreases |ticks|
  {
    hide Terminated, Tail, CleanAll, Aligned;
    if file != "" && maxLines > 0 && maxBytes > 0 {
      CleanWithin(Terminated(Aligned(file, WindowStart(|file|, maxBytes))), cap);
    }
    if ticks != [] {
      CleanWithin(Terminated(carry + ticks[0]), cap);
      NothingExceedsCap(file, ticks[1..], TickRead(ticks[0], carry, cap).carry, maxLines, maxBytes, cap);
    }
  }

  /** A record that ends within a tick comes out in its place: without its line end, LF or CRLF, and cut to the cap. */
  lemma {:induction false} RecordComesOut(
    carry: string, tick: string, before: string, record: string, crlf: bool, after: string, cap: nat)
    requires carry + tick == before + (record + (if crlf then "\r\n" else "\n")) + after && tick != ""
    requires Tail(before) == "" && '\n' !in record && (!crlf ==> record == "" || record[|record| - 1] != '\r')
    ensures
      var emitted := TickRead(tick, carry, cap).emitted;
      && |Terminated(before)| < |emitted|
      && emitted[|Terminated(before)|] == if |record| > cap then record[..cap] else record
  {
    hide Split, Terminated, Tail, CleanAll, Clean;
    var line := if crlf then record + "\r" else record;
    assert record + (if crlf then "\r\n" else "\n") == line + "\n";
    TerminatedSnoc(before, line);
    TerminatedConcat(before + (line + "\n"), after);
    CleanOfLine(record, crlf, cap);
    var first, rest := Terminated(before) + [line], Terminated("" + after);
    assert Terminated(carry + tick) == first + rest;
    CleanAllAt(first + rest, |Terminated(before)|, cap);
  }

  lemma {:induction false} CleanAllAt(records: seq<string>, k: nat, cap: nat)
    requires k < |records|
    ensures |CleanAll(records, cap)| == |records| && CleanAll(records, cap)[k] == Clean(records[k], cap)
  {
  }

  lemma {:induction false} CleanOfLine(record: string, crlf: bool, cap: nat)
    requires !crlf ==> record == "" || record[|record| - 1] != '\r'
    ensures Clean(if crlf then record + "\r" else record, cap) == if |record| > cap then record[..cap] else record
  {
    if crlf {
      assert (record + "\r")[|record|..] == "\r" && (record + "\r")[..|record|] == record;
    } else if record != "" {
      assert record[|record| - 1..] == [record[|record| - 1]];
    }
  }

  // ---------------------------------------------------------------- when cuts matter

  /** However `s` is cut into ticks after `carry`, the same lines are emitted. */
  ghost predicate CutsDoNotMatter(s: string, carry: string, cap: nat) {
    forall ticks :: Flat(ticks) == s ==> Replay(ticks, carry, cap).emitted == Replay([s], carry, cap).emitted
  }

  /** What every way of cutting emits below the limits: the records, and one flush of an overlong tail. */
  function Emitted(all: string, cap: nat): seq<string> {
    CleanAll(Terminated(all), cap) + if |Tail(all)| > cap then [Tail(all)[..cap]] else []
  }

  ghost predicate BelowLimits(all: string, cap: nat) {
    AllWithin(Terminated(all), cap) && |Tail(all)| < 2 * cap + 2
  }

  /** Main result on cuts: they do not matter if and only if every terminated record fits the cap and the
      unfinished line is too short to be flushed twice. */
  lemma {:induction false} CutsMatterExactly(s: string, carry: string, cap: nat)
    requires '\n' !in carry && |carry| <= cap
    ensures CutsDoNotMatter(s, carry, cap) <==> BelowLimits(carry + s, cap)
  {
    hide Terminated, Tail, CleanAll, Replay, Flat;
    var all := carry + s;
    if BelowLimits(all, cap) {
      forall ticks | Flat(ticks) == s
        ensures Replay(ticks, carry, cap).emitted == Replay([s], carry, cap).emitted
      {
        FlatOne(s);
        ReplayBelowLimits(ticks, carry, cap);
        ReplayBelowLimits([s], carry, cap);
      }
    } else if !AllWithin(Terminated(all), cap) {
      var k :| 0 <= k < |Terminated(all)| && |Terminated(all)[k]| > cap;
      var before, after := RecordAt(all, k);
      CutInRecord(s, carry, cap, before, Terminated(all)[k], after);
    } else {
      CutInTail(s, carry, cap);
    }
  }

  lemma {:induction false} FlatOne(s: string)
    ensures Flat([s]) == s
  {
    assert Flat([s][1..]) == "";
    assert s + "" == s;
  }

  lemma {:induction false} FlatTwo(a: string, b: string)
    ensures Flat([a, b]) == a + b
  {
    assert [a, b][1..] == [b];
    FlatOne(b);
  }

  lemma {:induction false} ReplayBelowLimits(ticks: seq<string>, carry: string, cap: nat)
    requires '\n' !in carry && |carry| <= cap && BelowLimits(carry + Flat(ticks), cap)
    ensures Replay(ticks, carry, cap).emitted == Emitted(carry + Flat(ticks), cap)
    decreases |ticks|
  {
    hide Split, Terminated, Tail, CleanAll, Clean;
    if ticks == [] {
      assert carry + "" == carry;
      TerminatedLine(carry);
      CleanAllNone(cap);
    } else {
      var a, b := carry + ticks[0], Flat(ticks[1..]);
      assert carry + Flat(ticks) == a + b;
      TerminatedConcat(a, b);
      CleanAllConcat(Terminated(a), Terminated(Tail(a) + b), cap);
      if ticks[0] == "" {
        assert a == carry;
        TerminatedLine(carry);
        assert Flat(ticks) == b;
        ReplayBelowLimits(ticks[1..], carry, cap);
      } else if |Tail(a)| <= cap {
        LimitsOfRest(a, b, cap);
        ReplayBelowLimits(ticks[1..], Tail(a), cap);
      } else {
        ReplayAfterFlush(ticks, carry, cap);
      }
    }
  }

  lemma {:induction false} CleanAllNone(cap: nat)
    ensures CleanAll([], cap) == []
  {
  }

  lemma {:induction false} LimitsOfRest(a: string, b: string, cap: nat)
    requires BelowLimits(a + b, cap)
    ensures AllWithin(Terminated(a), cap) && BelowLimits(Tail(a) + b, cap)
  {
    hide Terminated, Tail;
    TerminatedConcat(a, b);
    var p, q := Terminated(a), Terminated(Tail(a) + b);
    assert forall i :: 0 <= i < |p| ==> (p + q)[i] == p[i];
    assert forall i :: 0 <= i < |q| ==> (p + q)[|p| + i] == q[i];
  }

  /** After a flush the rest of the text is the rest of the unfinished line, too short for another. */
  lemma {:induction false} ReplayAfterFlush(ticks: seq<string>, carry: string, cap: nat)
    requires ticks != [] && ticks[0] != "" && '\n' !in carry && BelowLimits(carry + Flat(ticks), cap)
    requires |Tail(carry + ticks[0])| > cap
    ensures Replay(ticks, carry, cap).emitted == Emitted(carry + Flat(ticks), cap)
    decreases |ticks|, 0
  {
    hide Split, Terminated, Tail, CleanAll, Clean;
    var a, b := carry + ticks[0], Flat(ticks[1..]);
    assert carry + Flat(ticks) == a + b;
    LimitsOfRest(a, b, cap);
    TerminatedConcat(a, b);
    var u := Tail(a);
    LongLineStaysOpen(u, b, cap);
    assert Tail(a + b)[..cap] == u[..cap];
    assert Terminated(a) + [] == Terminated(a);
    TerminatedLine(b);
    assert "" + b == b;
    ReplayQuiet(ticks[1..], "", cap);
    var first := TickRead(ticks[0], carry, cap);
    assert first == Read(CleanAll(Terminated(a), cap) + [u[..cap]], "");
    assert first.emitted + [] == first.emitted;
  }

  /** An unfinished line over the cap cannot end below the limits. */
  lemma {:induction false} LongLineStaysOpen(u: string, b: string, cap: nat)
    requires '\n' !in u && |u| > cap && BelowLimits(u + b, cap)
    ensures '\n' !in b && Terminated(u + b) == [] && Tail(u + b) == u + b && |b| <= cap
  {
    hide Split, Terminated, Tail;
    if '\n' in b {
      FirstRecordIsLong(u, b);
    }
    TerminatedLine(u + b);
  }

  /** Splitting off the first record. */
  lemma {:induction false} FirstRecord(all: string)
    requires '\n' in all
    ensures
      var nl := IndexByte(all, '\n');
      && Terminated(all) == [all[..nl]] + Terminated(all[nl + 1..])
      && all == all[..nl] + "\n" + all[nl + 1..]
  {
    hide Split, Terminated, Tail, IndexByte;
    var nl := IndexByte(all, '\n');
    var line, rest := all[..nl], all[nl + 1..];
    assert all == (line + "\n") + rest;
    TerminatedLine(line);
    TerminatedConcat(line + "\n", rest);
    assert "" + rest == rest;
  }

  lemma {:induction false} FirstRecordIsLong(u: string, b: string)
    requires '\n' !in u && '\n' in b
    ensures |Terminated(u + b)| > 0 && |Terminated(u + b)[0]| >= |u|
  {
    hide IndexByte, Terminated;
    var k := IndexByte(b, '\n');
    assert (u + b)[|u| + k] == b[k];
    assert forall j :: 0 <= j < |u| ==> (u + b)[j] != '\n';
    FirstRecord(u + b);
  }

  lemma {:induction false} ReplayQuiet(ticks: seq<string>, carry: string, cap: nat)
    requires '\n' !in carry + Flat(ticks) && |carry + Flat(ticks)| <= cap
    ensures Replay(ticks, carry, cap).emitted == []
    decreases |ticks|
  {
    hide Split, Terminated, Tail, CleanAll;
    if ticks == [] {
    } else {
      var a := carry + ticks[0];
      assert carry + Flat(ticks) == a + Flat(ticks[1..]);
      TerminatedLine(a);
      CleanAllNone(cap);
      if ticks[0] == "" {
        assert a == carry;
      }
      ReplayQuiet(ticks[1..], a, cap);
    }
  }

  /** Record `k` of a text with what stands before and after it. */
  lemma {:induction false} RecordAt(all: string, k: nat) returns (before: string, after: string)
    requires k < |Terminated(all)|
    ensures all == before + (Terminated(all)[k] + ("\n" + after)) && Tail(before) == ""
    ensures '\n' !in Terminated(all)[k]
    decreases k
  {
    hide Split, Terminated, Tail, IndexByte;
    if '\n' !in all {
      TerminatedLine(all);
    }
    FirstRecord(all);
    var nl := IndexByte(all, '\n');
    var line, rest := all[..nl], all[nl + 1..];
    if k == 0 {
      before, after := "", rest;
      TerminatedLine("");
      assert all == "" + (line + ("\n" + rest));
    } else {
      var inner;
      inner, after := RecordAt(rest, k - 1);
      before := (line + "\n") + inner;
      TerminatedLine(line);
      TerminatedConcat(line + "\n", inner);
      assert "" + inner == inner;
      Regroup(line + "\n", inner, Terminated(all)[k] + ("\n" + after), "");
    }
  }

  /** Reading on from a carry is reading the carried text first, once something new arrives. */
  lemma {:induction false} CarryIsPrefix(x: string, y: string, carry: string, cap: nat)
    requires x != ""
    ensures Replay([x], carry, cap) == Replay([carry + x], "", cap)
    ensures Replay([x, y], carry, cap) == Replay([carry + x, y], "", cap)
  {
    assert "" + (carry + x) == carry + x;
    assert TickRead(x, carry, cap) == TickRead(carry + x, "", cap);
    assert [x, y][1..] == [carry + x, y][1..] == [y];
    assert [x][1..] == [carry + x][1..] == [];
  }

  lemma {:induction false} CutInRecord(
    s: string, carry: string, cap: nat, before: string, record: string, after: string)
    requires carry + s == before + (record + ("\n" + after)) && Tail(before) == "" && '\n' !in record
    requires |carry| <= cap < |record|
    ensures !CutsDoNotMatter(s, carry, cap)
  {
    hide Tail, Replay, Flat;
    var x, y := s[..|before| + |record| - |carry|], "\n" + after;
    assert carry + s == before + record + y;
    assert carry + x == (carry + s)[..|before| + |record|] == before + record;
    assert s == x + y;
    OverlongRecordDependsOnTicks(before, record, after, cap);
    CarryIsPrefix(x, y, carry, cap);
    CarryIsPrefix(s, "", carry, cap);
    FlatTwo(x, y);
    assert Replay([x, y], carry, cap).emitted != Replay([s], carry, cap).emitted;
  }

  lemma {:induction false} CutInTail(s: string, carry: string, cap: nat)
    requires |carry| <= cap && |Tail(carry + s)| >= 2 * cap + 2
    ensures !CutsDoNotMatter(s, carry, cap)
  {
    hide Split, Terminated, Tail, CleanAll, Replay, Flat;
    var all := carry + s;
    var body := TailEnds(all);
    var u := Tail(all);
    var p := |body| + cap + 1;
    var x, y := s[..p - |carry|], s[p - |carry|..];
    assert s == x + y;
    assert carry + x == all[..p] == body + u[..cap + 1];
    assert y == all[p..] == u[cap + 1..];
    TerminatedSnoc(body, u[..cap + 1]);
    TerminatedSnoc(body, u);
    TerminatedLine(y);
    CarryIsPrefix(x, y, carry, cap);
    CarryIsPrefix(s, "", carry, cap);
    FlatTwo(x, y);
    assert "" + y == y && "" + (carry + x) == carry + x && "" + all == all;
    TwoTicks(carry + x, y, cap);
    OneTick(all, cap);
    assert |Replay([x, y], carry, cap).emitted| == |Replay([s], carry, cap).emitted| + 1;
  }

  /** A text is its finished lines followed by its unfinished one. */
  lemma {:induction false} TailEnds(all: string) returns (body: string)
    ensures all == body + Tail(all) && Tail(body) == "" && '\n' !in Tail(all)
  {
    hide Split, Terminated, Tail;
    var nl := LastIndexByte(all, '\n');
    if nl < 0 {
      TerminatedLine(all);
      TerminatedLine("");
      body := "";
    } else {
      body := all[..nl + 1];
      CompletePart(all, nl);
      CompletePart(body, nl);
    }
  }
}
