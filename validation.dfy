/** The two validators of `doParse`: the stateless single-pattern pass and
    the block mode, a cyclic state machine over a list of patterns. */
module Validation {
  import opened Wrappers
  import opened JsString
  import opened Scanner
  import opened Rules
  import opened Patterns

  /** The severities of the language-server protocol. */
  datatype Severity = Error | Warning | Information | Hint

  const SourceLabel: string := "VUK SF Linter"

  /** A diagnostic with raw offsets; in the mode without a text document both
      positions are `{line: 0, character: offset}`. */
  datatype Diagnostic = Diagnostic(severity: Severity, start: nat, end: nat, message: string, source: string)

  /** The regex test, `pattern.exec(line) !== null`, which the model does not
      compute. */
  type Exec = (Pattern, string) -> bool

  /** The diagnostic for a line, with a given message. */
  function Warn(l: Line, message: string): Diagnostic {
    Diagnostic(Warning, l.start, l.end, message, SourceLabel)
  }

  /** Diagnostic ranges run forwards and each ends before the next starts. */
  predicate DiagnosticsOrdered(ds: seq<Diagnostic>) {
    (forall i :: 0 <= i < |ds| ==> ds[i].start <= ds[i].end)
    && (forall i, j :: 0 <= i < j < |ds| ==> ds[i].end < ds[j].start)
  }

  // ---------------------------------------------------------------------
  // Single-pattern mode

  /** One warning per line whose kept text the pattern rejects, in line order. */
  function SingleDiagnostics(r: Requirement, exec: Exec, lines: seq<Line>): seq<Diagnostic>
    decreases |lines|
  {
    if |lines| == 0 then []
    else
      var l := lines[|lines| - 1];
      SingleDiagnostics(r, exec, lines[..|lines| - 1]) + (if exec(r.pattern, l.kept) then [] else [Warn(l, r.message)])
  }

  /** The diagnostics of one more line. */
  lemma SingleAppend(r: Requirement, exec: Exec, lines: seq<Line>, l: Line)
    ensures SingleDiagnostics(r, exec, lines + [l])
      == SingleDiagnostics(r, exec, lines) + (if exec(r.pattern, l.kept) then [] else [Warn(l, r.message)])
  {
    assert (lines + [l])[..|lines|] == lines;
  }

  /** Single mode reports only failing lines, each with the requirement's
      message, severity `Warning` and the linter's source label. */
  lemma {:induction false} SingleDiagnosticsSound(r: Requirement, exec: Exec, lines: seq<Line>)
    ensures |SingleDiagnostics(r, exec, lines)| <= |lines|
    ensures forall d :: d in SingleDiagnostics(r, exec, lines) ==>
      d.severity == Warning && d.message == r.message && d.source == SourceLabel
    ensures forall d :: d in SingleDiagnostics(r, exec, lines) ==>
      exists i :: 0 <= i < |lines| && d == Warn(lines[i], r.message) && !exec(r.pattern, lines[i].kept)
    decreases |lines|
  {
    if |lines| > 0 {
      var n := |lines| - 1;
      var prior := lines[..n];
      SingleDiagnosticsSound(r, exec, prior);
      forall d | d in SingleDiagnostics(r, exec, prior)
        ensures exists i :: 0 <= i < |lines| && d == Warn(lines[i], r.message) && !exec(r.pattern, lines[i].kept)
      {
        var i :| 0 <= i < n && d == Warn(prior[i], r.message) && !exec(r.pattern, prior[i].kept);
        assert lines[i] == prior[i];
      }
    }
  }

  /** Single mode reports every failing line. */
  lemma {:induction false} SingleDiagnosticsComplete(r: Requirement, exec: Exec, lines: seq<Line>)
    ensures forall i :: 0 <= i < |lines| && !exec(r.pattern, lines[i].kept) ==>
      Warn(lines[i], r.message) in SingleDiagnostics(r, exec, lines)
    decreases |lines|
  {
    if |lines| > 0 {
      var n := |lines| - 1;
      var prior := lines[..n];
      SingleDiagnosticsComplete(r, exec, prior);
      forall i | 0 <= i < n && !exec(r.pattern, lines[i].kept)
        ensures Warn(lines[i], r.message) in SingleDiagnostics(r, exec, lines)
      {
        assert prior[i] == lines[i];
      }
    }
  }

  /** Single mode reports a scanned line exactly when the pattern rejects it
      (distinct scanned lines have distinct ranges). */
  lemma SingleDiagnosticsExact(r: Requirement, exec: Exec, lines: seq<Line>)
    requires Ordered(lines)
    ensures forall i :: 0 <= i < |lines| ==>
      (Warn(lines[i], r.message) in SingleDiagnostics(r, exec, lines) <==> !exec(r.pattern, lines[i].kept))
  {
    SingleDiagnosticsSound(r, exec, lines);
    SingleDiagnosticsComplete(r, exec, lines);
    forall i | 0 <= i < |lines| && Warn(lines[i], r.message) in SingleDiagnostics(r, exec, lines)
      ensures !exec(r.pattern, lines[i].kept)
    {
      var j :| 0 <= j < |lines| && Warn(lines[i], r.message) == Warn(lines[j], r.message) && !exec(r.pattern, lines[j].kept);
      assert lines[i].start == lines[j].start;
      assert i == j;
    }
  }

  /** Single mode's diagnostics come in document order and do not overlap. */
  lemma {:induction false} SingleOrdered(r: Requirement, exec: Exec, lines: seq<Line>)
    requires Ordered(lines)
    ensures DiagnosticsOrdered(SingleDiagnostics(r, exec, lines))
    decreases |lines|
  {
    if |lines| > 0 {
      var n := |lines| - 1;
      var prior := lines[..n];
      var last := lines[n];
      assert Ordered(prior);
      SingleOrdered(r, exec, prior);
      SingleDiagnosticsSound(r, exec, prior);
      var ds := SingleDiagnostics(r, exec, prior);
      forall d | d in ds ensures d.end + 2 <= last.start {
        var i :| 0 <= i < n && d == Warn(prior[i], r.message) && !exec(r.pattern, prior[i].kept);
        assert lines[i] == prior[i];
      }
      assert last.start <= last.end;
    }
  }

  /** A skipped raw line adds no diagnostic. */
  lemma SingleSkipStep(r: Requirement, exec: Exec, raws: seq<string>, k: nat)
    requires k < |raws| && Retained(raws[k]).None?
    ensures SingleDiagnostics(r, exec, ScanLines(raws[..k + 1])) == SingleDiagnostics(r, exec, ScanLines(raws[..k]))
  {
    SkipStep(raws, k);
  }

  /** A retained raw line adds its diagnostic when the pattern rejects it. */
  lemma SingleKeepStep(r: Requirement, exec: Exec, raws: seq<string>, k: nat, l: Line)
    requires k < |raws| && Retained(raws[k]) == Some(l.kept)
    requires l == Line(k, raws[k], l.kept, RawOffset(raws[..k]) + |raws[k]| - |l.kept|, RawOffset(raws[..k]) + |raws[k]|)
    ensures SingleDiagnostics(r, exec, ScanLines(raws[..k + 1]))
      == SingleDiagnostics(r, exec, ScanLines(raws[..k])) + (if exec(r.pattern, l.kept) then [] else [Warn(l, r.message)])
  {
    KeepStep(raws, k, l);
    SingleAppend(r, exec, ScanLines(raws[..k]), l);
  }

  /** The test of one kept line in single mode: a diagnostic with the
      requirement's message when the pattern rejects it. */
  method SingleLine(requirement: Requirement, line: string, offset: nat, exec: Exec, ghost l: Line)
    returns (found: seq<Diagnostic>)
    requires l.kept == line && l.start == offset && l.end == offset + |line|
    ensures found == if exec(requirement.pattern, l.kept) then [] else [Warn(l, requirement.message)]
  {
    found := [];
    if !exec(requirement.pattern, line) {
      found := [Diagnostic(Warning, offset, offset + |line|, requirement.message, SourceLabel)];
    }
  }

  /** The single-pattern loop of `doParse` over the raw lines: preprocess,
      test, and keep the running offset. */
  method SingleLines(requirement: Requirement, raws: seq<string>, exec: Exec) returns (diagnostics: seq<Diagnostic>)
    ensures diagnostics == SingleDiagnostics(requirement, exec, ScanLines(raws))
  {
    var offset: nat := 0;
    diagnostics := [];
    for k := 0 to |raws|
      invariant offset == RawOffset(raws[..k])
      invariant diagnostics == SingleDiagnostics(requirement, exec, ScanLines(raws[..k]))
    {
      OffsetStep(raws, k);
      var kept;
      kept, offset := Preprocess(raws[k], offset);
      if kept.None? {
        SingleSkipStep(requirement, exec, raws, k);
      } else {
        var line := kept.value;
        ghost var l := Line(k, raws[k], line, offset, offset + |line|);
        SingleKeepStep(requirement, exec, raws, k, l);
        var found := SingleLine(requirement, line, offset, exec, l);
        diagnostics := diagnostics + found;
        offset := offset + |line| + 2;
      }
    }
    assert raws[..|raws|] == raws;
  }

  /** Single mode on a document: split on CRLF, then the loop. */
  method SingleMode(requirement: Requirement, text: string, exec: Exec) returns (diagnostics: seq<Diagnostic>)
    ensures diagnostics == SingleDiagnostics(requirement, exec, Scan(text))
  {
    var raws := Split(text, Crlf);
    diagnostics := SingleLines(requirement, raws, exec);
  }

  // ---------------------------------------------------------------------
  // Block mode

  /** The cursor's step on a failed test: to the next pattern, wrapping from
      the last to the first. */
  function Advance(c: nat, n: nat): (next: nat)
    requires c < n
    ensures next < n
    ensures next == (c + 1) % n
  {
    if c < n - 1 then c + 1 else 0
  }

  /** The index before `c` in the cycle, the inverse of `Advance`. */
  function Previous(c: nat, n: nat): (p: nat)
    requires c < n
    ensures p < n && Advance(p, n) == c
  {
    if c == 0 then n - 1 else c - 1
  }

  /** The block cursor and the diagnostics so far. */
  datatype BlockState = BlockState(cursor: nat, diagnostics: seq<Diagnostic>)

  /** Both tests fail on a line: the pattern at the cursor and the next one. */
  predicate Rejected(rules: seq<Requirement>, exec: Exec, c: nat, l: Line)
    requires c < |rules|
  {
    !exec(rules[c].pattern, l.kept) && !exec(rules[Advance(c, |rules|)].pattern, l.kept)
  }

  /** One line in block mode: the cursor stays when its pattern accepts the
      line and advances otherwise, whatever the retest gives; a diagnostic,
      with the message of the pattern tested first, only when both tests fail. */
  function BlockStep(rules: seq<Requirement>, exec: Exec, c: nat, l: Line): (s: BlockState)
    requires c < |rules|
    ensures s.cursor == if exec(rules[c].pattern, l.kept) then c else Advance(c, |rules|)
    ensures s.diagnostics == if Rejected(rules, exec, c, l) then [Warn(l, rules[c].message)] else []
  {
    if exec(rules[c].pattern, l.kept) then BlockState(c, [])
    else
      var next := Advance(c, |rules|);
      BlockState(next, if exec(rules[next].pattern, l.kept) then [] else [Warn(l, rules[c].message)])
  }

  /** Block mode over a sequence of lines, from the cursor at 0. */
  function BlockRun(rules: seq<Requirement>, exec: Exec, lines: seq<Line>): (s: BlockState)
    requires |rules| > 0
    ensures s.cursor < |rules|
    ensures |s.diagnostics| <= |lines|
    decreases |lines|
  {
    if |lines| == 0 then BlockState(0, [])
    else
      var s := BlockRun(rules, exec, lines[..|lines| - 1]);
      var t := BlockStep(rules, exec, s.cursor, lines[|lines| - 1]);
      BlockState(t.cursor, s.diagnostics + t.diagnostics)
  }

  /** The cursor when line `i` is tested. */
  function CursorBefore(rules: seq<Requirement>, exec: Exec, lines: seq<Line>, i: nat): (c: nat)
    requires |rules| > 0 && i <= |lines|
    ensures c < |rules|
  {
    BlockRun(rules, exec, lines[..i]).cursor
  }

  /** The cursor starts at 0 and moves only by the cycle: it stays when the
      pattern at the cursor accepts the line and is advanced otherwise. */
  lemma CursorLaw(rules: seq<Requirement>, exec: Exec, lines: seq<Line>)
    requires |rules| > 0
    ensures CursorBefore(rules, exec, lines, 0) == 0
    ensures forall i :: 0 <= i < |lines| ==>
      var c := CursorBefore(rules, exec, lines, i);
      CursorBefore(rules, exec, lines, i + 1) == if exec(rules[c].pattern, lines[i].kept) then c else Advance(c, |rules|)
  {
    assert lines[..0] == [];
    forall i | 0 <= i < |lines|
      ensures var c := CursorBefore(rules, exec, lines, i);
        CursorBefore(rules, exec, lines, i + 1) == if exec(rules[c].pattern, lines[i].kept) then c else Advance(c, |rules|)
    {
      assert lines[..i + 1][..i] == lines[..i];
    }
  }

  /** Adding a line does not change the cursor before the earlier lines. */
  lemma CursorPrefix(rules: seq<Requirement>, exec: Exec, lines: seq<Line>)
    requires |rules| > 0 && |lines| > 0
    ensures forall i :: 0 <= i < |lines| ==>
      CursorBefore(rules, exec, lines, i) == CursorBefore(rules, exec, lines[..|lines| - 1], i)
  {
    var prior := lines[..|lines| - 1];
    forall i | 0 <= i < |lines|
      ensures CursorBefore(rules, exec, lines, i) == CursorBefore(rules, exec, prior, i)
    {
      assert lines[..i] == prior[..i];
    }
  }

  /** Block mode reports only lines on which both tests fail, with the
      message of the pattern the cursor pointed to before the line. */
  lemma {:induction false} BlockDiagnosticsSound(rules: seq<Requirement>, exec: Exec, lines: seq<Line>)
    requires |rules| > 0
    ensures forall d :: d in BlockRun(rules, exec, lines).diagnostics ==>
      exists i :: 0 <= i < |lines|
        && d == Warn(lines[i], rules[CursorBefore(rules, exec, lines, i)].message)
        && Rejected(rules, exec, CursorBefore(rules, exec, lines, i), lines[i])
    decreases |lines|
  {
    if |lines| > 0 {
      var n := |lines| - 1;
      var prior := lines[..n];
      BlockDiagnosticsSound(rules, exec, prior);
      CursorPrefix(rules, exec, lines);
      assert lines[..n] == prior;
      forall d | d in BlockRun(rules, exec, prior).diagnostics
        ensures exists i :: (0 <= i < |lines|
          && d == Warn(lines[i], rules[CursorBefore(rules, exec, lines, i)].message)
          && Rejected(rules, exec, CursorBefore(rules, exec, lines, i), lines[i]))
      {
        var i :| 0 <= i < n
          && d == Warn(prior[i], rules[CursorBefore(rules, exec, prior, i)].message)
          && Rejected(rules, exec, CursorBefore(rules, exec, prior, i), prior[i]);
        assert lines[i] == prior[i];
      }
    }
  }

  /** Block mode reports every line on which both tests fail. */
  lemma {:induction false} BlockDiagnosticsComplete(rules: seq<Requirement>, exec: Exec, lines: seq<Line>)
    requires |rules| > 0
    ensures forall i :: 0 <= i < |lines| && Rejected(rules, exec, CursorBefore(rules, exec, lines, i), lines[i]) ==>
      Warn(lines[i], rules[CursorBefore(rules, exec, lines, i)].message) in BlockRun(rules, exec, lines).diagnostics
    decreases |lines|
  {
    if |lines| > 0 {
      var n := |lines| - 1;
      var prior := lines[..n];
      var s := BlockRun(rules, exec, prior);
      var t := BlockStep(rules, exec, s.cursor, lines[n]);
      assert BlockRun(rules, exec, lines).diagnostics == s.diagnostics + t.diagnostics;
      forall i | 0 <= i < |lines| && Rejected(rules, exec, CursorBefore(rules, exec, lines, i), lines[i])
        ensures Warn(lines[i], rules[CursorBefore(rules, exec, lines, i)].message) in s.diagnostics + t.diagnostics
      {
        if i < n {
          BlockDiagnosticsComplete(rules, exec, prior);
          CursorPrefix(rules, exec, lines);
          assert lines[i] == prior[i];
          assert Warn(prior[i], rules[CursorBefore(rules, exec, prior, i)].message) in s.diagnostics;
        } else {
          assert lines[..n] == prior;
          assert CursorBefore(rules, exec, lines, i) == s.cursor;
        }
      }
    }
  }

  /** Block mode reports a scanned line exactly when both of its tests fail. */
  lemma BlockDiagnosticsExact(rules: seq<Requirement>, exec: Exec, lines: seq<Line>)
    requires |rules| > 0 && Ordered(lines)
    ensures forall i :: 0 <= i < |lines| ==>
      (Warn(lines[i], rules[CursorBefore(rules, exec, lines, i)].message) in BlockRun(rules, exec, lines).diagnostics
       <==> Rejected(rules, exec, CursorBefore(rules, exec, lines, i), lines[i]))
  {
    BlockDiagnosticsSound(rules, exec, lines);
    BlockDiagnosticsComplete(rules, exec, lines);
    forall i | 0 <= i < |lines| && Warn(lines[i], rules[CursorBefore(rules, exec, lines, i)].message) in BlockRun(rules, exec, lines).diagnostics
      ensures Rejected(rules, exec, CursorBefore(rules, exec, lines, i), lines[i])
    {
      var j :| 0 <= j < |lines|
        && Warn(lines[i], rules[CursorBefore(rules, exec, lines, i)].message) == Warn(lines[j], rules[CursorBefore(rules, exec, lines, j)].message)
        && Rejected(rules, exec, CursorBefore(rules, exec, lines, j), lines[j]);
      assert lines[i].start == lines[j].start;
      assert i == j;
    }
  }

  /** Block mode's diagnostic ranges run forwards and end by the last line's end. */
  lemma {:induction false} BlockWithin(rules: seq<Requirement>, exec: Exec, lines: seq<Line>)
    requires |rules| > 0 && Ordered(lines)
    ensures forall d :: d in BlockRun(rules, exec, lines).diagnostics ==>
      |lines| > 0 && d.start <= d.end <= lines[|lines| - 1].end
    decreases |lines|
  {
    if |lines| > 0 {
      var n := |lines| - 1;
      var prior := lines[..n];
      assert Ordered(prior);
      BlockWithin(rules, exec, prior);
      if n > 0 {
        assert prior[n - 1] == lines[n - 1];
      }
      assert lines[n].start <= lines[n].end;
    }
  }

  /** Two ordered runs of diagnostics, the first ending before the second starts, stay ordered when joined. */
  lemma OrderedAppend(ds: seq<Diagnostic>, ts: seq<Diagnostic>)
    requires DiagnosticsOrdered(ds) && DiagnosticsOrdered(ts)
    requires forall i, j :: 0 <= i < |ds| && 0 <= j < |ts| ==> ds[i].end < ts[j].start
    ensures DiagnosticsOrdered(ds + ts)
  {
    var all := ds + ts;
    forall i, j | 0 <= i < j < |all| ensures all[i].end < all[j].start {
      if j < |ds| {
        assert all[i] == ds[i] && all[j] == ds[j];
      } else if i < |ds| {
        assert all[i] == ds[i] && all[j] == ts[j - |ds|];
      } else {
        assert all[i] == ts[i - |ds|] && all[j] == ts[j - |ds|];
      }
    }
  }

  /** Block mode's diagnostics come in document order and do not overlap. */
  lemma {:induction false} BlockOrdered(rules: seq<Requirement>, exec: Exec, lines: seq<Line>)
    requires |rules| > 0 && Ordered(lines)
    ensures DiagnosticsOrdered(BlockRun(rules, exec, lines).diagnostics)
    decreases |lines|
  {
    if |lines| > 0 {
      var n := |lines| - 1;
      var prior := lines[..n];
      assert Ordered(prior);
      BlockOrdered(rules, exec, prior);
      BlockWithin(rules, exec, prior);
      var s := BlockRun(rules, exec, prior);
      var t := BlockStep(rules, exec, s.cursor, lines[n]);
      assert lines[n].start <= lines[n].end;
      forall i, j | 0 <= i < |s.diagnostics| && 0 <= j < |t.diagnostics|
        ensures s.diagnostics[i].end < t.diagnostics[j].start
      {
        assert s.diagnostics[i] in s.diagnostics;
        assert prior[n - 1] == lines[n - 1];
      }
      OrderedAppend(s.diagnostics, t.diagnostics);
    }
  }

  /** With a single pattern, block mode retests the same pattern and reports
      exactly what single mode reports. */
  lemma {:induction false} BlockOfOneIsSingle(r: Requirement, exec: Exec, lines: seq<Line>)
    ensures BlockRun([r], exec, lines) == BlockState(0, SingleDiagnostics(r, exec, lines))
    decreases |lines|
  {
    if |lines| > 0 {
      BlockOfOneIsSingle(r, exec, lines[..|lines| - 1]);
    }
  }

  /** A skipped raw line leaves block mode's state as it was. */
  lemma BlockSkipStep(rules: seq<Requirement>, exec: Exec, raws: seq<string>, k: nat)
    requires |rules| > 0 && k < |raws| && Retained(raws[k]).None?
    ensures BlockRun(rules, exec, ScanLines(raws[..k + 1])) == BlockRun(rules, exec, ScanLines(raws[..k]))
  {
    SkipStep(raws, k);
  }

  /** A retained raw line takes block mode one step on its line. */
  lemma BlockKeepStep(rules: seq<Requirement>, exec: Exec, raws: seq<string>, k: nat, l: Line)
    requires |rules| > 0 && k < |raws| && Retained(raws[k]) == Some(l.kept)
    requires l == Line(k, raws[k], l.kept, RawOffset(raws[..k]) + |raws[k]| - |l.kept|, RawOffset(raws[..k]) + |raws[k]|)
    ensures BlockRun(rules, exec, ScanLines(raws[..k + 1])) == BlockState(
      BlockStep(rules, exec, BlockRun(rules, exec, ScanLines(raws[..k])).cursor, l).cursor,
      BlockRun(rules, exec, ScanLines(raws[..k])).diagnostics + BlockStep(rules, exec, BlockRun(rules, exec, ScanLines(raws[..k])).cursor, l).diagnostics)
  {
    KeepStep(raws, k, l);
    var before := ScanLines(raws[..k]);
    var lines := before + [l];
    assert lines[..|lines| - 1] == before;
  }

  /** The test of one kept line in block mode: the pattern at the cursor,
      and on a failure the next pattern in the cycle; a diagnostic, carrying
      the message before the new cursor, when both fail. */
  method BlockLine(rules: seq<Requirement>, blockIndicator: nat, line: string, offset: nat, exec: Exec, ghost l: Line)
    returns (next: nat, found: seq<Diagnostic>)
    requires blockIndicator < |rules|
    requires l.kept == line && l.start == offset && l.end == offset + |line|
    ensures BlockState(next, found) == BlockStep(rules, exec, blockIndicator, l)
  {
    next := blockIndicator;
    found := [];
    if !exec(rules[next].pattern, line) {
      if next < |rules| - 1 {
        next := next + 1;
      } else if next == |rules| - 1 {
        next := 0;
      }
      if !exec(rules[next].pattern, line) {
        var prevBlockIndicator := if next == 0 then |rules| - 1 else next - 1;
        found := [Diagnostic(Warning, offset, offset + |line|, rules[prevBlockIndicator].message, SourceLabel)];
      }
    }
  }

  /** The block loop of `doParse` over the raw lines, with the cursor
      `blockIndicator`. */
  method BlockLines(rules: seq<Requirement>, raws: seq<string>, exec: Exec) returns (diagnostics: seq<Diagnostic>)
    requires |rules| > 0
    ensures diagnostics == BlockRun(rules, exec, ScanLines(raws)).diagnostics
  {
    var offset: nat := 0;
    var blockIndicator: nat := 0;
    diagnostics := [];
    for k := 0 to |raws|
      invariant offset == RawOffset(raws[..k])
      invariant BlockState(blockIndicator, diagnostics) == BlockRun(rules, exec, ScanLines(raws[..k]))
    {
      OffsetStep(raws, k);
      var kept;
      kept, offset := Preprocess(raws[k], offset);
      if kept.None? {
        BlockSkipStep(rules, exec, raws, k);
      } else {
        var line := kept.value;
        ghost var l := Line(k, raws[k], line, offset, offset + |line|);
        BlockKeepStep(rules, exec, raws, k, l);
        var found;
        blockIndicator, found := BlockLine(rules, blockIndicator, line, offset, exec, l);
        diagnostics := diagnostics + found;
        offset := offset + |line| + 2;
      }
    }
    assert raws[..|raws|] == raws;
  }

  /** Block mode on a document: split on CRLF, then the loop. */
  method BlockMode(rules: seq<Requirement>, text: string, exec: Exec) returns (diagnostics: seq<Diagnostic>)
    requires |rules| > 0
    ensures diagnostics == BlockRun(rules, exec, Scan(text)).diagnostics
  {
    var raws := Split(text, Crlf);
    diagnostics := BlockLines(rules, raws, exec);
  }

  /** The SMR region cycle, with a test under which each pattern accepts
      one line only ("a", "b" and "c" in turn); lines "a", "x", "b", "x": the
      first fits pattern 0; "x" fails 0 and 1 and is reported with pattern
      0's message, leaving the cursor on 1; "b" fits 1; the last "x" fails 1
      and 2 and is reported with pattern 1's message, leaving the cursor on 2. */
  lemma BlockCycleExample(l0: Line, l1: Line, l2: Line, l3: Line)
    requires l0.kept == "a" && l1.kept == "x" && l2.kept == "b" && l3.kept == "x"
    ensures var rules := [Requirement(RegionNameLine, "A"), Requirement(RegionColourLine, "B"), Requirement(CoordinateLine, "C")];
      var exec: Exec := (p, s) => (p == RegionNameLine && s == "a") || (p == RegionColourLine && s == "b") || (p == CoordinateLine && s == "c");
      BlockRun(rules, exec, [l0, l1, l2, l3]) == BlockState(2, [Warn(l1, "A"), Warn(l3, "B")])
  {
    var rules := [Requirement(RegionNameLine, "A"), Requirement(RegionColourLine, "B"), Requirement(CoordinateLine, "C")];
    var exec: Exec := (p, s) => (p == RegionNameLine && s == "a") || (p == RegionColourLine && s == "b") || (p == CoordinateLine && s == "c");
    assert [l0, l1, l2, l3][..3] == [l0, l1, l2];
    assert [l0, l1, l2][..2] == [l0, l1];
    assert [l0, l1][..1] == [l0];
    assert [l0][..0] == [];
    assert BlockRun(rules, exec, [l0]) == BlockState(0, []);
    assert BlockRun(rules, exec, [l0, l1]) == BlockState(1, [Warn(l1, "A")]);
    assert BlockRun(rules, exec, [l0, l1, l2]) == BlockState(1, [Warn(l1, "A")]);
  }
}
