/**
 Retention of the rolling log, telemetry.rs. The file is its list of lines; `stamp` gives the time
 of a line that is a log event with a readable time; a line costs its length plus one.
 */
module Telemetry {
  import opened Wrappers
  import opened StableSort
  import opened Text

  const MAX_BYTES := 10 * 1024 * 1024

  datatype Entry = Entry(time: int, line: string)

  type Stamp = string -> Option<int>

  // ---------------------------------------------------------------- the specification

  function NonEmpty(file: seq<string>): seq<string> {
    Select(file, s => s != "")
  }

  predicate Current(line: string, stamp: Stamp, cutoff: int) {
    stamp(line).Some? && stamp(line).value >= cutoff
  }

  /** The lines in the window, with their times. */
  function Stamped(lines: seq<string>, stamp: Stamp, cutoff: int): seq<Entry> {
    if lines == [] then []
    else
      (if Current(lines[0], stamp, cutoff) then [Entry(stamp(lines[0]).value, lines[0])] else [])
      + Stamped(lines[1..], stamp, cutoff)
  }

  const NOT_LATER := (x: Entry, y: Entry) => x.time <= y.time

  /** The window, oldest first, ties in file order. */
  function Window(file: seq<string>, stamp: Stamp, cutoff: int): seq<Entry> {
    Sort(Stamped(NonEmpty(file), stamp, cutoff), NOT_LATER)
  }

  function Cost(entries: seq<Entry>): nat {
    if entries == [] then 0 else |entries[0].line| + 1 + Cost(entries[1..])
  }

  function Lines(entries: seq<Entry>): seq<string> {
    seq(|entries|, i requires 0 <= i < |entries| => entries[i].line)
  }

  /** The longest suffix within the budget. */
  function Retained(entries: seq<Entry>): seq<Entry> {
    if Cost(entries) <= MAX_BYTES then entries else Retained(entries[1..])
  }

  /** A file without content is left alone. */
  function Rotated(file: seq<string>, stamp: Stamp, cutoff: int): seq<string> {
    if NonEmpty(file) == [] then file else Lines(Retained(Window(file, stamp, cutoff)))
  }

  // ---------------------------------------------------------------- what is retained

  lemma {:induction false} CostOfSuffix(entries: seq<Entry>, k: nat)
    requires k <= |entries|
    ensures Cost(entries[k..]) <= Cost(entries)
  {
    if k > 0 {
      CostOfSuffix(entries[1..], k - 1);
      assert entries[1..][k - 1..] == entries[k..];
    }
  }

  /** `k` starts a suffix that fits, and one older entry would not. */
  predicate LongestFit(entries: seq<Entry>, k: nat) {
    k <= |entries| && Cost(entries[k..]) <= MAX_BYTES && (k > 0 ==> Cost(entries[k - 1..]) > MAX_BYTES)
  }

  lemma {:induction false} RetainedIs(entries: seq<Entry>, k: nat)
    requires LongestFit(entries, k)
    ensures Retained(entries) == entries[k..]
  {
    if k > 0 {
      CostOfSuffix(entries, k - 1);
      assert entries[1..][k - 1..] == entries[k..];
      assert k > 1 ==> entries[1..][k - 2..] == entries[k - 1..];
      RetainedIs(entries[1..], k - 1);
    } else {
      assert entries[0..] == entries;
    }
  }

  /** Either everything is kept, or the entry before the kept ones would overflow the budget. */
  lemma {:induction false} RetainedFits(entries: seq<Entry>)
    ensures |Retained(entries)| <= |entries|
    ensures LongestFit(entries, |entries| - |Retained(entries)|)
    ensures Retained(entries) == entries[|entries| - |Retained(entries)|..]
  {
    if Cost(entries) <= MAX_BYTES {
      assert entries[0..] == entries;
    } else {
      RetainedFits(entries[1..]);
      var k := |entries| - |Retained(entries)|;
      assert k >= 1 && entries[1..][k - 1..] == entries[k..];
      assert k > 1 ==> entries[1..][k - 2..] == entries[k - 1..];
      assert entries[0..] == entries;
    }
  }

  lemma TimesAreOrdered()
    ensures TotalPreorder(NOT_LATER)
  {
  }

  lemma {:induction false} StampedAreGenuine(lines: seq<string>, stamp: Stamp, cutoff: int)
    ensures forall e :: e in Stamped(lines, stamp, cutoff) <==>
                  e.line in lines && stamp(e.line) == Some(e.time) && e.time >= cutoff
  {
    if lines != [] {
      StampedAreGenuine(lines[1..], stamp, cutoff);
      assert forall s :: s in lines <==> s == lines[0] || s in lines[1..];
    }
  }

  // ---------------------------------------------------------------- rotations compose

  function Since(time: int): Entry -> bool {
    (e: Entry) => e.time >= time
  }

  /** A later cutoff keeps the newer part of the same window. */
  lemma {:induction false} LaterStamped(lines: seq<string>, stamp: Stamp, cutoff: int, later: int)
    requires cutoff <= later
    ensures Stamped(lines, stamp, later) == Select(Stamped(lines, stamp, cutoff), Since(later))
  {
    if lines != [] {
      var rest := Stamped(lines[1..], stamp, cutoff);
      LaterStamped(lines[1..], stamp, cutoff, later);
      if Current(lines[0], stamp, cutoff) {
        var e := Entry(stamp(lines[0]).value, lines[0]);
        assert Stamped(lines, stamp, cutoff) == [e] + rest;
        SelectHead(e, rest, Since(later));
        assert Since(later)(e) == (e.time >= later);
      } else {
        assert Stamped(lines, stamp, cutoff) == rest;
      }
    }
  }

  /** Reading the retained lines back gives the same entries, cut to the later window. */
  lemma {:induction false} LinesAreReadBack(entries: seq<Entry>, stamp: Stamp, later: int)
    requires forall e :: e in entries ==> e.line != "" && stamp(e.line) == Some(e.time)
    ensures NonEmpty(Lines(entries)) == Lines(entries)
    ensures Stamped(Lines(entries), stamp, later) == Select(entries, Since(later))
  {
    if entries != [] {
      assert entries[0] in entries;
      LinesAreReadBack(entries[1..], stamp, later);
      assert Lines(entries)[1..] == Lines(entries[1..]);
    }
  }

  /** The budget and a later window commute on sorted entries. */
  lemma {:induction false} BudgetThenWindow(entries: seq<Entry>, later: int)
    requires Sorted(entries, NOT_LATER)
    ensures var p := Since(later);
            Retained(Select(Retained(entries), p)) == Retained(Select(entries, p))
  {
    var p := Since(later);
    if Cost(entries) > MAX_BYTES {
      BudgetThenWindow(entries[1..], later);
      assert [entries[0]] + entries[1..] == entries;
      SelectHead(entries[0], entries[1..], p);
      if p(entries[0]) {
        forall e | e in entries ensures p(e) {
          var i :| 0 <= i < |entries| && entries[i] == e;
          assert i > 0 ==> NOT_LATER(entries[0], entries[i]);
        }
        SelectAll(entries, p);
        SelectAll(entries[1..], p);
      }
    }
  }

  lemma {:induction false} SelectAll(entries: seq<Entry>, p: Entry -> bool)
    requires forall e :: e in entries ==> p(e)
    ensures Select(entries, p) == entries
  {
    if entries != [] {
      SelectAll(entries[1..], p);
    }
  }

  lemma LaterWindow(file: seq<string>, stamp: Stamp, cutoff: int, later: int)
    requires cutoff <= later
    ensures Window(file, stamp, later) == Select(Window(file, stamp, cutoff), Since(later))
  {
    TimesAreOrdered();
    LaterStamped(NonEmpty(file), stamp, cutoff, later);
    SortThenSelect(Stamped(NonEmpty(file), stamp, cutoff), NOT_LATER, Since(later));
  }

  lemma WindowOfLines(entries: seq<Entry>, stamp: Stamp, later: int)
    requires Sorted(entries, NOT_LATER)
    requires forall e :: e in entries ==> e.line != "" && stamp(e.line) == Some(e.time)
    ensures NonEmpty(Lines(entries)) == Lines(entries)
    ensures Window(Lines(entries), stamp, later) == Select(entries, Since(later))
  {
    LinesAreReadBack(entries, stamp, later);
    SelectKeeps(entries, Since(later), NOT_LATER);
    SortedIsFixed(Select(entries, Since(later)), NOT_LATER);
  }

  lemma SuffixIsSorted(all: seq<Entry>, k: nat)
    requires Sorted(all, NOT_LATER) && k <= |all|
    ensures Sorted(all[k..], NOT_LATER) && forall e :: e in all[k..] ==> e in all
  {
    forall i, j | 0 <= i < j < |all| - k ensures NOT_LATER(all[k..][i], all[k..][j]) {
      assert all[k..][i] == all[k + i] && all[k..][j] == all[k + j];
    }
  }

  lemma WindowIsSorted(file: seq<string>, stamp: Stamp, cutoff: int)
    ensures Sorted(Window(file, stamp, cutoff), NOT_LATER)
  {
    TimesAreOrdered();
    SortSorts(Stamped(NonEmpty(file), stamp, cutoff), NOT_LATER);
  }

  lemma WindowIsGenuine(file: seq<string>, stamp: Stamp, cutoff: int)
    ensures forall e :: e in Window(file, stamp, cutoff) <==>
                  e.line in file && e.line != "" && stamp(e.line) == Some(e.time) && e.time >= cutoff
  {
    StampedAreGenuine(NonEmpty(file), stamp, cutoff);
    SelectKeeps(file, s => s != "", (x, y) => true);
    SortPermutes(Stamped(NonEmpty(file), stamp, cutoff), NOT_LATER);
  }

  /** The size of the file with these entries, one to a line, as it is written. */
  function FileSize(entries: seq<Entry>): nat {
    |Join(Lines(entries), "\n")|
  }

  lemma {:induction false} CostIsSize(entries: seq<Entry>)
    ensures Cost(entries) == if entries == [] then 0 else FileSize(entries) + 1
  {
    if entries != [] {
      var rest := entries[1..];
      CostIsSize(rest);
      assert Lines(entries) == [entries[0].line] + Lines(rest);
      if rest != [] {
        JoinCons(entries[0].line, Lines(rest), "\n");
      }
    }
  }

  /**
   The rotated file is smaller than 10 MB, and with the entry before the kept ones it would not be.
   The window is what it should be, and nothing that is dropped from it is newer than anything kept.
   */
  lemma KeepsTheNewest(file: seq<string>, stamp: Stamp, cutoff: int)
    ensures var all := Window(file, stamp, cutoff);
            var k := |all| - |Retained(all)|;
            && k >= 0 && Retained(all) == all[k..] && FileSize(all[k..]) < 10485760
            && (k > 0 ==> FileSize(all[k - 1..]) >= 10485760)
            && (forall e :: e in all <==>
                  e.line in file && e.line != "" && stamp(e.line) == Some(e.time) && e.time >= cutoff)
            && (forall i, j :: 0 <= i < k <= j < |all| ==> all[i].time <= all[j].time)
  {
    var all := Window(file, stamp, cutoff);
    RetainedFits(all);
    var k := |all| - |Retained(all)|;
    CostIsSize(all[k..]);
    if k > 0 {
      CostIsSize(all[k - 1..]);
    }
    WindowIsGenuine(file, stamp, cutoff);
    WindowIsSorted(file, stamp, cutoff);
    forall i, j | 0 <= i < j < |all| ensures all[i].time <= all[j].time {
      assert NOT_LATER(all[i], all[j]);
    }
  }

  /**
   An earlier rotation never changes what a later one leaves: rotating at `cutoff` and then at
   `later` gives what rotating once at `later` gives. With `later == cutoff`, rotating twice is
   rotating once.
   */
  lemma RotationsCompose(file: seq<string>, stamp: Stamp, cutoff: int, later: int)
    requires cutoff <= later
    ensures Rotated(Rotated(file, stamp, cutoff), stamp, later) == Rotated(file, stamp, later)
  {
    if NonEmpty(file) != [] {
      var all := Window(file, stamp, cutoff);
      var kept := Retained(all);
      WindowIsSorted(file, stamp, cutoff);
      WindowIsGenuine(file, stamp, cutoff);
      RetainedFits(all);
      SuffixIsSorted(all, |all| - |kept|);
      LaterWindow(file, stamp, cutoff, later);
      WindowOfLines(kept, stamp, later);
      BudgetThenWindow(all, later);
      if kept == [] {
        assert Lines(kept) == [] && Lines(Retained(Select(kept, Since(later)))) == [];
      }
    }
  }

  // ---------------------------------------------------------------- the rotation

  lemma {:induction false} SelectSnoc<T>(s: seq<T>, x: T, p: T -> bool)
    ensures Select(s + [x], p) == Select(s, p) + if p(x) then [x] else []
  {
    if s != [] {
      assert (s + [x])[1..] == s[1..] + [x];
      SelectSnoc(s[1..], x, p);
    } else {
      assert (s + [x])[1..] == [];
    }
  }

  lemma {:induction false} StampedSnoc(lines: seq<string>, x: string, stamp: Stamp, cutoff: int)
    ensures Stamped(lines + [x], stamp, cutoff) ==
            Stamped(lines, stamp, cutoff) + if Current(x, stamp, cutoff) then [Entry(stamp(x).value, x)] else []
  {
    if lines != [] {
      assert (lines + [x])[1..] == lines[1..] + [x];
      StampedSnoc(lines[1..], x, stamp, cutoff);
    } else {
      assert (lines + [x])[1..] == [];
    }
  }

  function Reversed<T>(s: seq<T>): seq<T> {
    seq(|s|, i requires 0 <= i < |s| => s[|s| - 1 - i])
  }

  /** The backwards scan over the sorted entries, which stops at the first that does not fit. */
  method KeepNewest(entries: seq<Entry>) returns (kept: seq<string>)
    ensures kept == Lines(Retained(entries))
  {
    var keptBytes := 0;
    kept := [];
    var i := |entries|;
    while i > 0 && keptBytes + |entries[i - 1].line| + 1 <= MAX_BYTES
      invariant 0 <= i <= |entries|
      invariant keptBytes == Cost(entries[i..]) <= MAX_BYTES
      invariant Reversed(kept) == Lines(entries[i..])
    {
      i := i - 1;
      assert entries[i..] == [entries[i]] + entries[i + 1..];
      assert Lines(entries[i..]) == [entries[i].line] + Lines(entries[i + 1..]);
      assert Reversed(kept + [entries[i].line]) == [entries[i].line] + Reversed(kept);
      keptBytes := keptBytes + |entries[i].line| + 1;
      kept := kept + [entries[i].line];
    }
    assert i > 0 ==> entries[i - 1..] == [entries[i - 1]] + entries[i..];
    RetainedIs(entries, i);
    kept := Reversed(kept);
  }

  lemma NonEmptyHas(file: seq<string>, line: string)
    requires line in NonEmpty(file)
    ensures line in file && line != ""
  {
    SelectKeeps(file, s => s != "", (x, y) => true);
  }

  method RotateRetention(file: seq<string>, stamp: Stamp, cutoff: int) returns (out: seq<string>)
    ensures out == Rotated(file, stamp, cutoff)
    ensures (forall line :: line in file ==> line == "") ==> out == file
  {
    var lines := NonEmpty(file);
    if lines == [] {
      return file;
    }
    NonEmptyHas(file, lines[0]);
    var withTs: seq<Entry> := [];
    for i := 0 to |lines|
      invariant withTs == Stamped(lines[..i], stamp, cutoff)
    {
      assert lines[..i + 1] == lines[..i] + [lines[i]];
      StampedSnoc(lines[..i], lines[i], stamp, cutoff);
      var t := stamp(lines[i]);
      if t.Some? && t.value >= cutoff {
        withTs := withTs + [Entry(t.value, lines[i])];
      }
    }
    assert lines[..|lines|] == lines;
    withTs := Sort(withTs, NOT_LATER);
    out := KeepNewest(withTs);
  }

  // ---------------------------------------------------------------- reading one session

  const MAX_EVENTS_PER_SESSION_LOG := 2000

  /** The event on a line, if it holds one. */
  function EventOn<E>(line: string, parse: string -> Option<E>): seq<E> {
    var text := Trim(line);
    if text != "" && parse(text).Some? then [parse(text).value] else []
  }

  /** White space around an event is skipped, and so is a line of white space or of anything else. */
  lemma LinesHoldEvents<E>(before: string, text: string, after: string, parse: string -> Option<E>)
    requires AllSpace(before) && AllSpace(after) && Trimmed(text)
    ensures EventOn(before + text + after, parse) ==
            if text == "" then [] else match parse(text) case Some(e) => [e] case None => []
  {
    TrimDrops(before, text, after);
  }

  function SessionEvents<E>(file: seq<string>, parse: string -> Option<E>): seq<E> {
    if file == [] then []
    else SessionEvents(file[..|file| - 1], parse) + EventOn(file[|file| - 1], parse)
  }

  lemma SessionEventsNext<E>(file: seq<string>, line: string, parse: string -> Option<E>)
    ensures SessionEvents(file + [line], parse) == SessionEvents(file, parse) + EventOn(line, parse)
  {
    assert (file + [line])[..|file|] == file;
  }

  function Latest<E>(events: seq<E>): seq<E> {
    if |events| > MAX_EVENTS_PER_SESSION_LOG then events[|events| - MAX_EVENTS_PER_SESSION_LOG..] else events
  }

  lemma LatestPushes<E>(events: seq<E>, e: E)
    ensures var tail := Latest(events) + [e];
            Latest(events + [e]) == if |tail| > MAX_EVENTS_PER_SESSION_LOG then tail[1..] else tail
  {
  }

  /** One line of the file, through the ring buffer. */
  function Pushed<E>(tail: seq<E>, line: string, parse: string -> Option<E>): seq<E> {
    var all := tail + EventOn(line, parse);
    if |all| > MAX_EVENTS_PER_SESSION_LOG then all[1..] else all
  }

  lemma PushedIsLatest<E>(events: seq<E>, line: string, parse: string -> Option<E>)
    ensures Pushed(Latest(events), line, parse) == Latest(events + EventOn(line, parse))
  {
    var event := EventOn(line, parse);
    if event == [] {
      assert events + event == events && Latest(events) + event == Latest(events);
    } else {
      assert event == [event[0]];
      LatestPushes(events, event[0]);
    }
  }

  method PushEvent<E>(tail: seq<E>, line: string, parse: string -> Option<E>) returns (longer: seq<E>)
    requires |tail| <= MAX_EVENTS_PER_SESSION_LOG
    ensures longer == Pushed(tail, line, parse)
  {
    longer := tail;
    var text := Trim(line);
    if text != "" {
      var event := parse(text);
      if event.Some? {
        longer := longer + [event.value];
        if |longer| > MAX_EVENTS_PER_SESSION_LOG {
          longer := longer[1..];
        }
      }
    }
  }

  /** `load_session_log_from_dir`: the ring buffer ends as the latest events of the whole file. */
  method LoadSessionLog<E>(file: seq<string>, parse: string -> Option<E>) returns (tail: seq<E>)
    ensures var all := SessionEvents(file, parse); tail == if |all| > 2000 then all[|all| - 2000..] else all
  {
    tail := [];
    for i := 0 to |file|
      invariant tail == Latest(SessionEvents(file[..i], parse))
    {
      assert file[..i + 1] == file[..i] + [file[i]];
      SessionEventsNext(file[..i], file[i], parse);
      PushedIsLatest(SessionEvents(file[..i], parse), file[i], parse);
      tail := PushEvent(tail, file[i], parse);
    }
    assert file[..|file|] == file;
  }
}
