/**
 Span merging and masking: data_sensitivity.rs. The pattern rules are replaced by an arbitrary list
 of nonempty findings inside the input; everything after them is modelled.
 */
module Masking {
  import opened StableSort

  datatype Level = Low | Medium | High

  function Rank(l: Level): nat {
    match l case Low => 0 case Medium => 1 case High => 2
  }

  datatype Finding = Finding(level: Level, start: nat, end: nat, kind: string, patternId: string)

  /** Sort key: start ascending, then level descending. */
  predicate Before(a: Finding, b: Finding) {
    a.start < b.start || (a.start == b.start && Rank(a.level) >= Rank(b.level))
  }

  lemma BeforeIsOrder()
    ensures TotalPreorder(Before)
  {
  }

  function Raws(fs: seq<Finding>): set<Finding> {
    set f | f in fs
  }

  predicate Nonempty(fs: set<Finding>) {
    forall f :: f in fs ==> f.start < f.end
  }

  /** Strictly apart and in order: no two spans overlap or touch. */
  predicate Separated(m: seq<Finding>) {
    && (forall i :: 0 <= i < |m| ==> m[i].start < m[i].end)
    && forall i, j :: 0 <= i < j < |m| ==> m[i].end < m[j].start
  }

  predicate Within(f: Finding, m: Finding) {
    m.start <= f.start && f.end <= m.end
  }

  /** The positions a finding covers. */
  function Span(f: Finding): set<nat> {
    set p: nat | p < f.end && At(f, p)
  }

  predicate At(f: Finding, p: nat) {
    f.start <= p < f.end
  }

  /** The positions that some finding covers. */
  function Covered(fs: set<Finding>): set<nat> {
    set f, p | f in fs && p in Span(f) :: p
  }

  /** `m` has the level, kind and pattern of the finding `f` inside it. */
  predicate TakenFrom(f: Finding, m: Finding) {
    Within(f, m) && f.level == m.level && f.kind == m.kind && f.patternId == m.patternId
  }

  predicate Stronger(a: Level, b: Level) {
    (a == High && b != High) || (a == Medium && b == Low)
  }

  /** `f` is stronger than `g`, or as strong and does not start later. */
  predicate Leads(f: Finding, g: Finding) {
    Stronger(f.level, g.level) || (f.level == g.level && f.start <= g.start)
  }

  predicate LeadsAll(fs: set<Finding>, f: Finding, m: Finding) {
    forall g :: g in fs && Within(g, m) ==> Leads(f, g)
  }

  /** `m` is taken from the first of the strongest raw findings inside it. */
  predicate Strongest(fs: set<Finding>, m: Finding) {
    exists f :: f in fs && TakenFrom(f, m) && LeadsAll(fs, f, m)
  }

  /** `m` starts where some raw finding starts and ends where some raw finding ends. */
  predicate RawEnds(fs: set<Finding>, m: Finding) {
    (exists f :: f in fs && f.start == m.start) && (exists f :: f in fs && f.end == m.end)
  }

  /**
   `m` is the canonical merge of `fs`: strictly separated spans over exactly the covered positions,
   with raw end points, each at the level and kind of the first of the strongest findings inside it.
   */
  ghost predicate Merges(fs: set<Finding>, m: seq<Finding>) {
    Separated(m) && Covered(Raws(m)) == Covered(fs) && AllInside(fs, m) && AllRaw(fs, m)
  }

  predicate AllInside(fs: set<Finding>, m: seq<Finding>) {
    forall f {:trigger Inside(f, m)} :: f in fs ==> Inside(f, m)
  }

  predicate Inside(f: Finding, m: seq<Finding>) {
    exists g :: g in m && Within(f, g)
  }

  predicate AllRaw(fs: set<Finding>, m: seq<Finding>) {
    forall g {:trigger Raw(fs, g)} :: g in m ==> Raw(fs, g)
  }

  predicate Raw(fs: set<Finding>, g: Finding) {
    RawEnds(fs, g) && Strongest(fs, g)
  }

  // ---------------------------------------------------------------- one more finding

  lemma CoveredUnion(a: set<Finding>, b: set<Finding>)
    ensures Covered(a + b) == Covered(a) + Covered(b)
  {
  }

  lemma CoveredAppend(m: seq<Finding>, f: Finding)
    ensures Covered(Raws(m + [f])) == Covered(Raws(m)) + Span(f)
  {
    assert Raws(m + [f]) == Raws(m) + {f};
    CoveredUnion(Raws(m), {f});
    assert Covered({f}) == Span(f);
  }

  /** A finding outside `g` leaves `g`'s end points and strength alone. */
  lemma RawsGrow(fs: set<Finding>, f: Finding, g: Finding)
    requires Raw(fs, g) && !Within(f, g)
    ensures Raw(fs + {f}, g)
  {
    var a :| a in fs && a.start == g.start;
    var b :| b in fs && b.end == g.end;
    var c :| c in fs && TakenFrom(c, g) && LeadsAll(fs, c, g);
    assert a in fs + {f} && b in fs + {f} && c in fs + {f};
    assert LeadsAll(fs + {f}, c, g);
  }

  lemma RawAlone(fs: set<Finding>, f: Finding)
    requires forall h :: h in fs ==> !Within(h, f)
    ensures Raw(fs + {f}, f)
  {
    assert f in fs + {f} && TakenFrom(f, f) && LeadsAll(fs + {f}, f, f);
  }

  lemma LastIsFurthest(m: seq<Finding>, g: Finding)
    requires Separated(m) && g in m
    ensures g == m[|m| - 1] || g.end < m[|m| - 1].start
  {
    var i :| 0 <= i < |m| && m[i] == g;
  }

  lemma InsideGrows(fs: set<Finding>, m: seq<Finding>, f: Finding, n: seq<Finding>)
    requires AllInside(fs, m) && Inside(f, n)
    requires forall g {:trigger Inside(g, n)} :: g in m ==> Inside(g, n)
    ensures AllInside(fs + {f}, n)
  {
    forall h | h in fs ensures Inside(h, n) {
      assert Inside(h, m);
      var g :| g in m && Within(h, g);
      assert Inside(g, n);
      var k :| k in n && Within(g, k);
      assert Within(h, k);
    }
  }

  lemma AllRawAppends(fs: set<Finding>, m: seq<Finding>, f: Finding)
    requires Separated(m) && AllInside(fs, m) && AllRaw(fs, m) && Nonempty(fs) && f.start < f.end
    requires m != [] ==> m[|m| - 1].end < f.start
    ensures AllRaw(fs + {f}, m + [f])
  {
    forall h | h in fs ensures !Within(h, f) {
      assert Inside(h, m);
      var g :| g in m && Within(h, g);
      LastIsFurthest(m, g);
    }
    RawAlone(fs, f);
    forall g | g in m ensures Raw(fs + {f}, g) {
      LastIsFurthest(m, g);
      assert Raw(fs, g);
      RawsGrow(fs, f, g);
    }
  }

  lemma Appends(fs: set<Finding>, m: seq<Finding>, f: Finding)
    requires Merges(fs, m) && f.start < f.end && Nonempty(fs)
    requires m != [] ==> m[|m| - 1].end < f.start
    ensures Merges(fs + {f}, m + [f])
  {
    CoveredAppend(m, f);
    CoveredUnion(fs, {f});
    assert Covered({f}) == Span(f);
    AllRawAppends(fs, m, f);
    var n := m + [f];
    forall g | g in n ensures Inside(g, n) {
      assert Within(g, g);
    }
    assert f in n;
    InsideGrows(fs, m, f, n);
    SeparatedAppends(m, f);
  }

  lemma SeparatedAppends(m: seq<Finding>, f: Finding)
    requires Separated(m) && f.start < f.end
    requires m != [] ==> m[|m| - 1].end < f.start
    ensures Separated(m + [f])
  {
  }

  /** `last` extended to cover `f`, as the code updates it. */
  function Widened(last: Finding, f: Finding): Finding {
    var strong := if Rank(f.level) > Rank(last.level) then f else last;
    Finding(strong.level, last.start, if last.end >= f.end then last.end else f.end, strong.kind, strong.patternId)
  }

  lemma RawWidens(fs: set<Finding>, last: Finding, f: Finding)
    requires Raw(fs, last) && f.start < f.end && last.start <= f.start <= last.end
    requires forall h :: h in fs && Within(h, Widened(last, f)) ==> Within(h, last)
    requires NoneAfter(fs, f)
    ensures Raw(fs + {f}, Widened(last, f))
  {
    var wider, gs := Widened(last, f), fs + {f};
    var a :| a in fs && a.start == last.start;
    var b :| b in fs && b.end == last.end;
    var c :| c in fs && TakenFrom(c, last) && LeadsAll(fs, c, last);
    assert a in gs && b in gs && c in gs && f in gs;
    var d := if Rank(f.level) > Rank(last.level) then f else c;
    assert TakenFrom(d, wider);
    forall g | g in gs && Within(g, wider) ensures Leads(d, g) {
      assert g == f || Leads(c, g);
    }
    assert LeadsAll(gs, d, wider);
  }

  /** No finding of `fs` starts after `f`. */
  predicate NoneAfter(fs: set<Finding>, f: Finding) {
    forall g :: g in fs ==> g.start <= f.start
  }

  lemma CoveredWidens(fs: set<Finding>, m: seq<Finding>, f: Finding)
    requires Covered(Raws(m)) == Covered(fs) && m != [] && f.start < f.end
    requires m[|m| - 1].start <= f.start <= m[|m| - 1].end
    ensures Covered(Raws(m[..|m| - 1] + [Widened(m[|m| - 1], f)])) == Covered(fs + {f})
  {
    var k := |m| - 1;
    assert m == m[..k] + [m[k]];
    CoveredAppend(m[..k], m[k]);
    CoveredAppend(m[..k], Widened(m[k], f));
    CoveredUnion(fs, {f});
    assert Covered({f}) == Span(f);
    assert Span(Widened(m[k], f)) == Span(m[k]) + Span(f);
  }

  /** What lies inside the widened last span lay inside the old one. */
  lemma InsideWidened(fs: set<Finding>, m: seq<Finding>, f: Finding, h: Finding)
    requires Separated(m) && AllInside(fs, m) && m != [] && h in fs
    requires Within(h, Widened(m[|m| - 1], f)) && h.start < h.end
    ensures Within(h, m[|m| - 1])
  {
    assert Inside(h, m);
    var g :| g in m && Within(h, g);
    LastIsFurthest(m, g);
  }

  lemma AllRawWidens(fs: set<Finding>, m: seq<Finding>, f: Finding)
    requires Separated(m) && AllInside(fs, m) && AllRaw(fs, m) && Nonempty(fs) && m != [] && f.start < f.end
    requires m[|m| - 1].start <= f.start <= m[|m| - 1].end && NoneAfter(fs, f)
    ensures AllRaw(fs + {f}, m[..|m| - 1] + [Widened(m[|m| - 1], f)])
  {
    var k := |m| - 1;
    var last, wider := m[k], Widened(m[k], f);
    forall h | h in fs && Within(h, wider) ensures Within(h, last) {
      InsideWidened(fs, m, f, h);
    }
    assert last in m && Raw(fs, last);
    RawWidens(fs, last, f);
    forall g | g in m[..k] ensures Raw(fs + {f}, g) {
      var i :| 0 <= i < k && m[i] == g;
      assert g in m && Raw(fs, g);
      RawsGrow(fs, f, g);
    }
  }

  lemma Widens(fs: set<Finding>, m: seq<Finding>, f: Finding)
    requires Merges(fs, m) && m != [] && f.start < f.end && Nonempty(fs)
    requires m[|m| - 1].start <= f.start <= m[|m| - 1].end && NoneAfter(fs, f)
    ensures Merges(fs + {f}, m[..|m| - 1] + [Widened(m[|m| - 1], f)])
  {
    var k := |m| - 1;
    var wider := Widened(m[k], f);
    var n := m[..k] + [wider];
    assert Covered(Raws(n)) == Covered(fs + {f}) by {
      CoveredWidens(fs, m, f);
    }
    assert Separated(n) by {
      SeparatedAppends(m[..k], wider);
    }
    assert AllRaw(fs + {f}, n) by {
      AllRawWidens(fs, m, f);
    }
    assert AllInside(fs + {f}, n) by {
      StillInside(m, wider, f);
      InsideGrows(fs, m, f, n);
    }
  }

  lemma StillInside(m: seq<Finding>, wider: Finding, f: Finding)
    requires m != [] && Within(m[|m| - 1], wider) && Within(f, wider)
    ensures var n := m[..|m| - 1] + [wider];
            Inside(f, n) && forall g {:trigger Inside(g, n)} :: g in m ==> Inside(g, n)
  {
    var n := m[..|m| - 1] + [wider];
    assert n[|m| - 1] in n;
    forall g | g in m ensures Inside(g, n) {
      var i :| 0 <= i < |m| && m[i] == g;
      assert n[i] in n && Within(g, n[i]);
    }
  }

  // ---------------------------------------------------------------- merge_findings

  /** `merge_overlapping_spans`: one pass over sorted findings, extending the last span. */
  method MergeOverlappingSpans(items: seq<Finding>) returns (merged: seq<Finding>)
    requires Nonempty(Raws(items)) && Sorted(items, Before)
    ensures Merges(Raws(items), merged)
  {
    merged := [];
    var i := 0;
    while i < |items|
      invariant 0 <= i <= |items|
      invariant Merges(Raws(items[..i]), merged)
      invariant merged != [] ==> i > 0 && merged[|merged| - 1].start <= items[i - 1].start
    {
      var f := items[i];
      assert f in Raws(items);
      assert Raws(items[..i + 1]) == Raws(items[..i]) + {f};
      assert i > 0 ==> Before(items[i - 1], f);
      assert NoneAfter(Raws(items[..i]), f);
      if |merged| > 0 && f.start <= merged[|merged| - 1].end {
        Widens(Raws(items[..i]), merged, f);
        var last := merged[|merged| - 1];
        last := last.(end := if last.end >= f.end then last.end else f.end);
        if Rank(f.level) > Rank(last.level) {
          last := last.(level := f.level);
          last := last.(kind := f.kind);
          last := last.(patternId := f.patternId);
        }
        merged := merged[..|merged| - 1] + [last];
      } else {
        Appends(Raws(items[..i]), merged, f);
        merged := merged + [f];
      }
      i := i + 1;
    }
    assert items[..i] == items;
  }

  /** `merge_findings`: sort by start and descending level, then merge. */
  method MergeFindings(findings: seq<Finding>) returns (merged: seq<Finding>)
    requires Nonempty(Raws(findings))
    ensures Merges(Raws(findings), merged)
  {
    if findings == [] {
      return [];
    }
    var sorted := Sort(findings, Before);
    BeforeIsOrder();
    SortSorts(findings, Before);
    SortPermutes(findings, Before);
    assert Raws(sorted) == Raws(findings);
    merged := MergeOverlappingSpans(sorted);
  }

  // ---------------------------------------------------------------- the merge is canonical

  lemma CoveredByMember(m: seq<Finding>, i: nat, p: nat)
    requires i < |m| && At(m[i], p)
    ensures p in Covered(Raws(m))
  {
    assert m[i] in Raws(m) && p in Span(m[i]);
  }

  lemma CoveredHasMember(m: seq<Finding>, p: nat) returns (i: nat)
    requires p in Covered(Raws(m))
    ensures i < |m| && At(m[i], p)
  {
    var f :| f in Raws(m) && p in Span(f);
    i :| 0 <= i < |m| && m[i] == f;
  }

  /** The last span of a separated list, read off the covered positions. */
  lemma LastSpan(m: seq<Finding>)
    requires Separated(m) && m != []
    ensures var last, c := m[|m| - 1], Covered(Raws(m));
            && (forall p :: last.start <= p < last.end ==> p in c)
            && (forall p :: p in c ==> p < last.end)
            && last.start - 1 !in c
            && Covered(Raws(m[..|m| - 1])) == set p | p in c && p < last.start
  {
    var k := |m| - 1;
    var last, c := m[k], Covered(Raws(m));
    forall p: nat | last.start <= p < last.end ensures p in c {
      CoveredByMember(m, k, p);
    }
    forall p: nat | p in c ensures p < last.end && p != last.start - 1 {
      var i := CoveredHasMember(m, p);
    }
    assert m == m[..k] + [last];
    CoveredAppend(m[..k], last);
    forall p: nat | p in Covered(Raws(m[..k])) ensures p < last.start {
      var i := CoveredHasMember(m[..k], p);
    }
  }

  lemma LastSpansAgree(m: seq<Finding>, n: seq<Finding>)
    requires Separated(m) && Separated(n) && m != [] && n != [] && Covered(Raws(m)) == Covered(Raws(n))
    ensures m[|m| - 1].start == n[|n| - 1].start && m[|m| - 1].end == n[|n| - 1].end
    ensures Covered(Raws(m[..|m| - 1])) == Covered(Raws(n[..|n| - 1]))
  {
    LastSpan(m);
    LastSpan(n);
    var a, b := m[|m| - 1], n[|n| - 1];
    CoveredByMember(m, |m| - 1, a.end - 1);
    CoveredByMember(n, |n| - 1, b.end - 1);
    assert a.end == b.end;
    CoveredByMember(m, |m| - 1, a.start);
    CoveredByMember(n, |n| - 1, b.start);
    assert a.start < b.start ==> b.start - 1 in Covered(Raws(m));
    assert b.start < a.start ==> a.start - 1 in Covered(Raws(n));
  }

  predicate SameSpans(m: seq<Finding>, n: seq<Finding>) {
    |m| == |n| && forall i :: 0 <= i < |m| ==> m[i].start == n[i].start && m[i].end == n[i].end
  }

  /** Separated spans are determined by the positions they cover. */
  lemma {:induction false} SpansAreDetermined(m: seq<Finding>, n: seq<Finding>)
    requires Separated(m) && Separated(n) && Covered(Raws(m)) == Covered(Raws(n))
    ensures SameSpans(m, n)
  {
    if m == [] || n == [] {
      if m != [] { CoveredByMember(m, 0, m[0].start); }
      if n != [] { CoveredByMember(n, 0, n[0].start); }
    } else {
      LastSpansAgree(m, n);
      SpansAreDetermined(m[..|m| - 1], n[..|n| - 1]);
    }
  }

  /**
   Two merges of the same findings, in whatever order and however often they were reported, have
   the same spans and the same levels.
   */
  lemma MergeIsCanonical(fs: set<Finding>, m: seq<Finding>, n: seq<Finding>)
    requires Merges(fs, m) && Merges(fs, n)
    ensures |m| == |n|
    ensures forall i :: 0 <= i < |m| ==>
              m[i].start == n[i].start && m[i].end == n[i].end && m[i].level == n[i].level
  {
    SpansAreDetermined(m, n);
    forall i | 0 <= i < |m| ensures m[i].level == n[i].level {
      assert m[i] in m && n[i] in n;
      assert Raw(fs, m[i]) && Raw(fs, n[i]);
      var f :| f in fs && TakenFrom(f, m[i]) && LeadsAll(fs, f, m[i]);
      var g :| g in fs && TakenFrom(g, n[i]) && LeadsAll(fs, g, n[i]);
      assert Within(f, n[i]) && Within(g, m[i]);
      assert Leads(f, g) && Leads(g, f);
    }
  }

  /** Some raw finding of level `l` lies inside `m`. */
  predicate Holds(fs: set<Finding>, m: Finding, l: Level) {
    exists f :: f in fs && Within(f, m) && f.level == l
  }

  /**
   Higher levels win: a merged span is High exactly when a High finding lies inside it, and Medium
   exactly when a Medium one does and no High one. Its kind and pattern are those of the first finding
   of that level inside it.
   */
  lemma HigherLevelsWin(fs: set<Finding>, m: seq<Finding>, k: nat)
    requires Merges(fs, m) && k < |m|
    ensures m[k].level == High <==> Holds(fs, m[k], High)
    ensures m[k].level == Medium <==> Holds(fs, m[k], Medium) && !Holds(fs, m[k], High)
    ensures exists f :: f in fs && TakenFrom(f, m[k]) &&
              forall g :: g in fs && Within(g, m[k]) && g.level == m[k].level ==> f.start <= g.start
  {
    assert m[k] in m && Raw(fs, m[k]);
    var f :| f in fs && TakenFrom(f, m[k]) && LeadsAll(fs, f, m[k]);
    forall g | g in fs && Within(g, m[k]) && g.level == m[k].level ensures f.start <= g.start {
      assert Leads(f, g);
    }
  }

  // ---------------------------------------------------------------- dedup_contained

  /** By start, and at one start the stronger first. */
  predicate InOrder(out: seq<Finding>) {
    forall i, j :: 0 <= i < j < |out| ==>
      out[i].start < out[j].start || (out[i].start == out[j].start && !Stronger(out[j].level, out[i].level))
  }

  lemma SortedIsInOrder(out: seq<Finding>)
    requires Sorted(out, Before)
    ensures InOrder(out)
  {
    forall i, j | 0 <= i < j < |out|
      ensures out[i].start < out[j].start || (out[i].start == out[j].start && !Stronger(out[j].level, out[i].level))
    {
      assert Before(out[i], out[j]);
    }
  }

  predicate Subsumes(o: Finding, f: Finding) {
    Within(f, o) && !Stronger(f.level, o.level)
  }

  predicate Kept(out: seq<Finding>, f: Finding) {
    exists o :: o in out && Subsumes(o, f)
  }

  /** Each finding that nothing kept before it subsumes. */
  function Deduped(sorted: seq<Finding>): seq<Finding> {
    if sorted == [] then []
    else
      var out, f := Deduped(sorted[..|sorted| - 1]), sorted[|sorted| - 1];
      if Kept(out, f) then out else out + [f]
  }

  lemma {:induction false} DedupedCovers(sorted: seq<Finding>)
    ensures forall o :: o in Deduped(sorted) ==> o in sorted
    ensures forall f :: f in sorted ==> Kept(Deduped(sorted), f)
  {
    if sorted != [] {
      var front, f := sorted[..|sorted| - 1], sorted[|sorted| - 1];
      DedupedCovers(front);
      forall g | g in sorted ensures Kept(Deduped(sorted), g) {
        if g in front {
          KeptGrows(Deduped(front), Deduped(sorted), g);
        } else {
          assert g == f && Subsumes(f, f);
        }
      }
    }
  }

  lemma KeptGrows(before: seq<Finding>, after: seq<Finding>, f: Finding)
    requires Kept(before, f) && forall o :: o in before ==> o in after
    ensures Kept(after, f)
  {
    var o :| o in before && Subsumes(o, f);
    assert o in after;
  }

  /** Nothing kept is subsumed by something kept before it. */
  predicate Irredundant(out: seq<Finding>) {
    forall i, j :: 0 <= i < j < |out| ==> !Subsumes(out[i], out[j])
  }

  lemma DedupedNext(front: seq<Finding>, f: Finding)
    ensures Deduped(front + [f]) == if Kept(Deduped(front), f) then Deduped(front) else Deduped(front) + [f]
  {
    assert (front + [f])[..|front|] == front;
  }

  lemma {:induction false} DedupedIsIrredundant(sorted: seq<Finding>)
    ensures Irredundant(Deduped(sorted))
  {
    if sorted != [] {
      var front, f := sorted[..|sorted| - 1], sorted[|sorted| - 1];
      assert front + [f] == sorted;
      DedupedIsIrredundant(front);
      DedupedNext(front, f);
    }
  }

  lemma {:induction false} DedupedIsSorted(sorted: seq<Finding>)
    requires Sorted(sorted, Before)
    ensures Sorted(Deduped(sorted), Before)
  {
    if sorted != [] {
      var front, f := sorted[..|sorted| - 1], sorted[|sorted| - 1];
      assert front + [f] == sorted;
      DedupedIsSorted(front);
      DedupedCovers(front);
      DedupedNext(front, f);
      var out := Deduped(front);
      forall i | 0 <= i < |out| ensures Before(out[i], f) {
        assert out[i] in front;
      }
    }
  }

  lemma SeparatedSubsumesNothing(front: seq<Finding>, f: Finding)
    requires Separated(front + [f])
    ensures Separated(front) && !Kept(front, f)
  {
    var m := front + [f];
    assert m[|front|] == f;
    assert forall i :: 0 <= i < |front| ==> front[i] == m[i];
    forall o | o in front ensures !Subsumes(o, f) {
      var i :| 0 <= i < |front| && front[i] == o;
      assert m[i] == o;
    }
  }

  lemma {:induction false} DedupedOfSeparated(m: seq<Finding>)
    requires Separated(m)
    ensures Deduped(m) == m
  {
    if m != [] {
      var front, f := m[..|m| - 1], m[|m| - 1];
      assert front + [f] == m;
      SeparatedSubsumesNothing(front, f);
      DedupedOfSeparated(front);
      DedupedNext(front, f);
    }
  }

  /**
   `dedup_contained`. It drops exactly what something kept subsumes, and after a merge it is the
   identity.
   */
  method DedupContained(findings: seq<Finding>) returns (out: seq<Finding>)
    ensures InOrder(out) && Irredundant(out)
    ensures forall o :: o in out ==> o in findings
    ensures forall f :: f in findings ==> Kept(out, f)
    ensures Separated(findings) ==> out == findings
  {
    var sorted := Sort(findings, Before);
    SortPermutes(findings, Before);
    BeforeIsOrder();
    SortSorts(findings, Before);
    out := [];
    for i := 0 to |sorted|
      invariant out == Deduped(sorted[..i])
    {
      assert sorted[..i + 1][..i] == sorted[..i];
      if !Kept(out, sorted[i]) {
        out := out + [sorted[i]];
      }
    }
    assert sorted[..|sorted|] == sorted;
    DedupedCovers(sorted);
    DedupedIsIrredundant(sorted);
    DedupedIsSorted(sorted);
    SortedIsInOrder(out);
    if Separated(findings) {
      SortedIsFixed(findings, Before);
      DedupedOfSeparated(findings);
    }
  }

  // ---------------------------------------------------------------- apply_masking

  predicate Dropped(f: Finding, dropOver: nat) {
    dropOver > 0 && f.level == High && f.start <= f.end && f.end - f.start > dropOver
  }

  /** What a span of `input` is shown as. */
  function Shown(input: string, f: Finding, dropOver: nat): string
    requires f.start <= f.end <= |input|
  {
    if Dropped(f, dropOver) then ""
    else if f.level == Low then input[f.start..f.end]
    else "[REDACTED: " + f.kind + "]"
  }

  predicate InRange(m: seq<Finding>, n: nat) {
    forall i :: 0 <= i < |m| ==> m[i].end <= n
  }

  /** The left-to-right reading of masking: untouched text and shown spans in turn. */
  function Masked(input: string, m: seq<Finding>, dropOver: nat, from: nat): string
    requires Separated(m) && InRange(m, |input|)
    requires from <= |input| && (m != [] ==> from <= m[0].start)
  {
    if m == [] then input[from..]
    else input[from..m[0].start] + (Shown(input, m[0], dropOver) + Masked(input, m[1..], dropOver, m[0].end))
  }

  lemma Glue(x: string, a: nat, b: nat, c: nat, t: string)
    requires a <= b <= c <= |x|
    ensures x[a..c] + t == x[a..b] + (x[b..c] + t)
  {
    assert x[a..c] == x[a..b] + x[b..c];
  }

  lemma Cut(x: string, s: nat, e: nat, b: nat, t: string)
    requires s <= e <= b <= |x|
    ensures (x[..b] + t)[..s] == x[..s]
    ensures (x[..b] + t)[s..e] == x[s..e]
    ensures (x[..b] + t)[e..] == x[e..b] + t
  {
  }

  lemma MaskedFrom(input: string, m: seq<Finding>, dropOver: nat, a: nat, b: nat)
    requires Separated(m) && InRange(m, |input|)
    requires a <= b <= |input| && (m != [] ==> b <= m[0].start)
    ensures Masked(input, m, dropOver, a) == input[a..b] + Masked(input, m, dropOver, b)
  {
    if m == [] {
      assert input[a..] == input[a..b] + input[b..];
    } else {
      Glue(input, a, b, m[0].start, Shown(input, m[0], dropOver) + Masked(input, m[1..], dropOver, m[0].end));
    }
  }

  /** With everything right of `b` done, the guard lets the next span through, and it is shown. */
  lemma MaskStep(input: string, m: seq<Finding>, dropOver: nat, b: nat, out: string)
    requires Separated(m) && InRange(m, |input|) && m != []
    requires m[0].end <= b <= |input| && (|m| > 1 ==> b <= m[1].start)
    requires out == input[..b] + Masked(input, m[1..], dropOver, b)
    ensures var f := m[0];
            && f.start < |out| && f.end <= |out|
            && out[..f.start] + Shown(input, f, dropOver) + out[f.end..]
               == input[..f.start] + Masked(input, m, dropOver, f.start)
            && out[..f.start] + input[f.start..f.end] + out[f.end..] == out
  {
    var f := m[0];
    var t := Masked(input, m[1..], dropOver, b);
    MaskedFrom(input, m[1..], dropOver, f.end, b);
    Cut(input, f.start, f.end, b, t);
    Regroup(out[..f.start], Shown(input, f, dropOver), out[f.end..]);
    assert input[f.start..f.start] == "";
    Split3(out, f.start, f.end);
  }

  lemma Split3(s: string, i: nat, j: nat)
    requires i <= j <= |s|
    ensures s[..i] + s[i..j] + s[j..] == s
  {
  }

  lemma Regroup(a: string, b: string, c: string)
    ensures a + b + c == a + ("" + (b + c))
  {
  }

  /**
   `apply_masking` rewrites the string in place from the last span to the first. On merged findings
   inside the input its bounds guard, which reads the length of the already rewritten string, never
   skips one: the result is the left-to-right reading.
   */
  method ApplyMasking(input: string, findings: seq<Finding>, dropOver: nat) returns (out: string)
    requires forall f :: f in findings ==> f.start <= f.end
    ensures Separated(findings) && InRange(findings, |input|) ==> out == Masked(input, findings, dropOver, 0)
  {
    out := input;
    ghost var ok := Separated(findings) && InRange(findings, |input|);
    ghost var b := |input|;
    var i := |findings|;
    while i > 0
      invariant 0 <= i <= |findings|
      invariant ok ==> b == if i < |findings| then findings[i].start else |input|
      invariant ok ==> b <= |input| && out == input[..b] + Masked(input, findings[i..], dropOver, b)
    {
      i := i - 1;
      var f := findings[i];
      assert f in findings;
      if ok {
        assert findings[i..][1..] == findings[i + 1..];
        MaskStep(input, findings[i..], dropOver, b, out);
      }
      var dropBlock := dropOver > 0 && f.level == High && f.end - f.start > dropOver;
      if dropBlock || f.level != Low {
        var replacement := if dropBlock then "" else "[REDACTED: " + f.kind + "]";
        if f.start < |out| && f.end <= |out| {
          out := out[..f.start] + replacement + out[f.end..];
        }
      }
      b := f.start;
    }
    if ok {
      assert findings[0..] == findings;
      MaskedFrom(input, findings, dropOver, 0, b);
    }
  }

  /** Sum of the span lengths. */
  function Removed(m: seq<Finding>): nat
    requires Separated(m)
  {
    if m == [] then 0 else m[0].end - m[0].start + Removed(m[1..])
  }

  /** Sum of the lengths of what replaces them. */
  function Inserted(input: string, m: seq<Finding>, dropOver: nat): nat
    requires Separated(m) && InRange(m, |input|)
  {
    if m == [] then 0 else |Shown(input, m[0], dropOver)| + Inserted(input, m[1..], dropOver)
  }

  lemma {:induction false} MaskedLength(input: string, m: seq<Finding>, dropOver: nat, from: nat)
    requires Separated(m) && InRange(m, |input|)
    requires from <= |input| && (m != [] ==> from <= m[0].start)
    ensures |Masked(input, m, dropOver, from)| == |input| - from - Removed(m) + Inserted(input, m, dropOver)
  {
    if m != [] {
      MaskedLength(input, m[1..], dropOver, m[0].end);
    }
  }

  predicate SameOutside(x: string, y: string, m: seq<Finding>, from: nat) {
    && |x| == |y|
    && forall p :: from <= p < |x| ==>
         x[p] == y[p] || exists i :: 0 <= i < |m| && m[i].level != Low && m[i].start <= p < m[i].end
  }

  /** The masked text says nothing about what the masked spans contained. */
  lemma {:induction false} MaskedSpansDoNotShow(x: string, y: string, m: seq<Finding>, dropOver: nat, from: nat)
    requires Separated(m) && InRange(m, |x|) && SameOutside(x, y, m, from)
    requires from <= |x| && (m != [] ==> from <= m[0].start)
    ensures Masked(x, m, dropOver, from) == Masked(y, m, dropOver, from)
  {
    if m == [] {
      assert x[from..] == y[from..];
    } else {
      var f := m[0];
      assert x[from..f.start] == y[from..f.start];
      assert f.level == Low ==> x[f.start..f.end] == y[f.start..f.end];
      forall p | f.end <= p < |x|
        ensures x[p] == y[p] || exists i :: 0 <= i < |m[1..]| && m[1..][i].level != Low && m[1..][i].start <= p < m[1..][i].end
      {
        if x[p] != y[p] {
          var i :| 0 <= i < |m| && m[i].level != Low && m[i].start <= p < m[i].end;
          assert m[1..][i - 1] == m[i];
        }
      }
      MaskedSpansDoNotShow(x, y, m[1..], dropOver, f.end);
    }
  }

  /** A lone finding is its own merge. */
  lemma LoneFinding(f: Finding, m: seq<Finding>)
    requires f.start < f.end && Merges({f}, m)
    ensures m == [f]
  {
    assert Covered({f}) == Span(f);
    assert Raws([f]) == {f};
    assert Separated([f]);
    SpansAreDetermined(m, [f]);
    assert m[0] in m && Raw({f}, m[0]);
    var g :| g in {f} && TakenFrom(g, m[0]);
    assert m[0] == f;
  }

  /**
   What a reader gets when the rules have found one span: the placeholder with its kind in its place,
   nothing at all for a High one that is longer than the limit, and the text itself for a Low one.
   */
  lemma LoneFindingMasked(input: string, f: Finding, m: seq<Finding>, dropOver: nat)
    requires f.start < f.end <= |input| && Merges({f}, m)
    ensures Separated(m) && InRange(m, |input|)
    ensures var left, right, hidden := input[..f.start], input[f.end..], "[REDACTED: " + f.kind + "]";
            Masked(input, m, dropOver, 0) ==
            match f.level
            case Low => input
            case Medium => left + (hidden + right)
            case High => if 0 < dropOver < f.end - f.start then left + right else left + (hidden + right)
  {
    LoneFinding(f, m);
    assert m[1..] == [];
    assert Masked(input, m, dropOver, 0) == input[..f.start] + (Shown(input, f, dropOver) + input[f.end..]);
    assert "" + input[f.end..] == input[f.end..];
    assert input == input[..f.start] + (input[f.start..f.end] + input[f.end..]);
  }

  // ---------------------------------------------------------------- classify_and_mask

  datatype SensitivityResult = SensitivityResult(
    level: Level, maskedContent: string, findings: seq<Finding>, originalLength: nat, redactedLength: nat)

  /** `classify_and_mask` after the rules have reported `raw`, without path normalisation. */
  method ClassifyAndMask(input: string, raw: seq<Finding>, dropOver: nat) returns (r: SensitivityResult)
    requires Nonempty(Raws(raw)) && InRange(raw, |input|)
    ensures Merges(Raws(raw), r.findings) && InRange(r.findings, |input|)
    ensures r.maskedContent == Masked(input, r.findings, dropOver, 0)
    ensures r.originalLength == |input|
    ensures r.redactedLength == |r.maskedContent| ==
            |input| - Removed(r.findings) + Inserted(input, r.findings, dropOver)
    ensures r.level == High <==> exists f :: f in raw && f.level == High
    ensures r.level == Medium <==> (exists f :: f in raw && f.level == Medium) && !exists f :: f in raw && f.level == High
  {
    var merged := MergeFindings(raw);
    MergedInRange(raw, merged, |input|);
    var findings := DedupContained(merged);
    var masked := ApplyMasking(input, findings, dropOver);
    MaskedLength(input, findings, dropOver, 0);
    var level := Low;
    for i := 0 to |findings|
      invariant forall k :: 0 <= k < i ==> Rank(findings[k].level) <= Rank(level)
      invariant level == Low || exists k :: 0 <= k < i && findings[k].level == level
    {
      if Rank(findings[i].level) > Rank(level) {
        level := findings[i].level;
      }
    }
    LevelIsRaw(raw, findings, level);
    r := SensitivityResult(level, masked, findings, |input|, |masked|);
  }

  lemma MergedInRange(raw: seq<Finding>, m: seq<Finding>, n: nat)
    requires Merges(Raws(raw), m) && InRange(raw, n)
    ensures InRange(m, n)
  {
    forall i | 0 <= i < |m| ensures m[i].end <= n {
      assert m[i] in m && Raw(Raws(raw), m[i]);
    }
  }

  lemma LevelIsRaw(raw: seq<Finding>, m: seq<Finding>, level: Level)
    requires Merges(Raws(raw), m)
    requires forall k :: 0 <= k < |m| ==> Rank(m[k].level) <= Rank(level)
    requires level == Low || exists k :: 0 <= k < |m| && m[k].level == level
    ensures level == High <==> exists f :: f in raw && f.level == High
    ensures level == Medium <==> (exists f :: f in raw && f.level == Medium) && !exists f :: f in raw && f.level == High
  {
    forall f | f in raw ensures Rank(f.level) <= Rank(level) {
      assert f in Raws(raw) && Inside(f, m);
      var g :| g in m && Within(f, g);
      assert Raw(Raws(raw), g);
      var h :| h in Raws(raw) && TakenFrom(h, g) && LeadsAll(Raws(raw), h, g);
      assert Leads(h, f);
    }
    if level != Low {
      var k :| 0 <= k < |m| && m[k].level == level;
      assert m[k] in m && Raw(Raws(raw), m[k]);
    }
  }
}
