/** `doParse` of server/src/parser.ts: resolve the path to a key, look the
    key up in the single-pattern table and then in the block table, and run
    the matching validator over the document. */
module Parser {
  import opened Wrappers
  import opened JsString
  import opened Scanner
  import opened Rules
  import opened Validation
  import opened Patterns
  import Identity
  import Constants

  /** The requirements filed under a key: the single pattern when there is
      one, else the block list, else none. */
  function RulesOf(cat: Catalogue, key: string): seq<Requirement> {
    if key in cat.lineRequirements then [cat.lineRequirements[key]]
    else if key in cat.blockLineRequirements then cat.blockLineRequirements[key]
    else []
  }

  /** The diagnostics of a document filed under `key`, or `None` when neither
      table knows the key. */
  function Lint(cat: Catalogue, key: string, text: string, exec: Exec): Option<seq<Diagnostic>>
    requires BlocksNonEmpty(cat)
  {
    if key in cat.lineRequirements then Some(SingleDiagnostics(cat.lineRequirements[key], exec, Scan(text)))
    else if key in cat.blockLineRequirements then Some(BlockRun(cat.blockLineRequirements[key], exec, Scan(text)).diagnostics)
    else None
  }

  /** The engine shared by `doParse` and `validateTextDocument`, over a
      given catalogue: the throw of the resolver, or the diagnostics of the
      document (`None` when no table knows its key). */
  function Engine(cat: Catalogue, path: seq<string>, content: string, exec: Exec): Outcome<Option<seq<Diagnostic>>>
    requires BlocksNonEmpty(cat)
  {
    match Identity.IdentityOf(path)
    case Threw => Threw
    case Returned(key) => Returned(Lint(cat, key, content, exec))
  }

  /** What `doParse` returns, with the catalogue of server/src/constants.ts:
      an unknown key gives the empty list. */
  function Parsed(path: seq<string>, content: string, exec: Exec): Outcome<seq<Diagnostic>> {
    match Engine(Constants.Tables(), path, content, exec)
    case Threw => Threw
    case Returned(linted) => Returned(if linted.Some? then linted.value else [])
  }

  /** The lookup and the choice of validator. */
  method LintText(cat: Catalogue, key: string, text: string, exec: Exec) returns (r: Option<seq<Diagnostic>>)
    requires BlocksNonEmpty(cat)
    ensures r == Lint(cat, key, text, exec)
  {
    if key in cat.lineRequirements {
      var diagnostics := SingleMode(cat.lineRequirements[key], text, exec);
      return Some(diagnostics);
    }
    if key !in cat.blockLineRequirements {
      return None;
    }
    var diagnostics := BlockMode(cat.blockLineRequirements[key], text, exec);
    r := Some(diagnostics);
  }

  /** The engine as a loop: the backwards scan, `path.join('/')`, then the
      lookup and the validator. */
  method RunEngine(cat: Catalogue, path: seq<string>, content: string, exec: Exec) returns (r: Outcome<Option<seq<Diagnostic>>>)
    requires BlocksNonEmpty(cat)
    ensures r == Engine(cat, path, content, exec)
  {
    var resolved := Identity.ResolvePath(path);
    if resolved.Threw? {
      return Threw;
    }
    var usefulPath := Join(resolved.value, "/");
    var linted := LintText(cat, usefulPath, content, exec);
    r := Returned(linted);
  }

  /** `doParse`, with positions as raw offsets into `content`. */
  method DoParse(path: seq<string>, content: string, exec: Exec) returns (r: Outcome<seq<Diagnostic>>)
    ensures r == Parsed(path, content, exec)
  {
    var outcome := RunEngine(Constants.Tables(), path, content, exec);
    if outcome.Threw? {
      return Threw;
    }
    r := Returned(if outcome.value.Some? then outcome.value.value else []);
  }

  /** A key with a single-pattern entry is linted in single mode, whatever
      the block table holds under the same key. */
  lemma SinglePriority(cat: Catalogue, key: string, text: string, exec: Exec)
    requires BlocksNonEmpty(cat) && key in cat.lineRequirements
    ensures Lint(cat, key, text, exec) == Lint(Catalogue(cat.lineRequirements, map[]), key, text, exec)
    ensures Lint(cat, key, text, exec) == Some(SingleDiagnostics(cat.lineRequirements[key], exec, Scan(text)))
  {
  }

  /** A key is linted exactly when one of the tables has it; an unknown key
      gives no diagnostics whatever the document holds. */
  lemma LintedIffKnown(cat: Catalogue, key: string, text: string, exec: Exec)
    requires BlocksNonEmpty(cat)
    ensures Lint(cat, key, text, exec).Some? <==> key in cat.lineRequirements || key in cat.blockLineRequirements
    ensures Lint(cat, key, text, exec).None? <==> |RulesOf(cat, key)| == 0
  {
  }

  /** Whatever the mode, the diagnostics are warnings with the linter's
      label and a message of one of the key's requirements; each covers the
      kept text of a scanned line, inside the document, in document order. */
  lemma {:induction false} LintSound(cat: Catalogue, key: string, text: string, exec: Exec)
    requires BlocksNonEmpty(cat) && Lint(cat, key, text, exec).Some?
    ensures DiagnosticsOrdered(Lint(cat, key, text, exec).value)
    ensures forall d :: d in Lint(cat, key, text, exec).value ==>
      d.severity == Warning && d.source == SourceLabel && d.end <= |text|
      && (exists l :: l in Scan(text) && d.start == l.start && d.end == l.end)
      && (exists i :: 0 <= i < |RulesOf(cat, key)| && d.message == RulesOf(cat, key)[i].message)
  {
    var lines := Scan(text);
    ScanLinesOrdered(Split(text, Crlf));
    LinesInText(text);
    var ds := Lint(cat, key, text, exec).value;
    if key in cat.lineRequirements {
      var r := cat.lineRequirements[key];
      SingleOrdered(r, exec, lines);
      SingleDiagnosticsSound(r, exec, lines);
      forall d | d in ds
        ensures d.severity == Warning && d.source == SourceLabel && d.end <= |text|
        ensures exists l :: l in lines && d.start == l.start && d.end == l.end
        ensures exists i :: 0 <= i < |RulesOf(cat, key)| && d.message == RulesOf(cat, key)[i].message
      {
        var i :| 0 <= i < |lines| && d == Warn(lines[i], r.message) && !exec(r.pattern, lines[i].kept);
        assert lines[i] in lines;
        assert RulesOf(cat, key)[0] == r;
      }
    } else {
      var rules := cat.blockLineRequirements[key];
      BlockOrdered(rules, exec, lines);
      BlockDiagnosticsSound(rules, exec, lines);
      forall d | d in ds
        ensures d.severity == Warning && d.source == SourceLabel && d.end <= |text|
        ensures exists l :: l in lines && d.start == l.start && d.end == l.end
        ensures exists i :: 0 <= i < |RulesOf(cat, key)| && d.message == RulesOf(cat, key)[i].message
      {
        var i :| 0 <= i < |lines|
          && d == Warn(lines[i], rules[CursorBefore(rules, exec, lines, i)].message)
          && Rejected(rules, exec, CursorBefore(rules, exec, lines, i), lines[i]);
        assert lines[i] in lines;
        var c := CursorBefore(rules, exec, lines, i);
        assert RulesOf(cat, key)[c] == rules[c];
      }
    }
  }

  /** With the catalogue of constants.ts, each key the resolver produces on
      its own is linted line by line with that key's single pattern. */
  lemma FixedKeysLinted(path: seq<string>, content: string, exec: Exec)
    requires Identity.IdentityOf(path).Returned? && Identity.IdentityOf(path).value in Identity.FixedKeys
    ensures Parsed(path, content, exec)
      == Returned(SingleDiagnostics(Constants.LineRequirement(Identity.IdentityOf(path).value), exec, Scan(content)))
  {
    Constants.FixedKeysListed();
  }

  /** With the catalogue of constants.ts, the three block keys are linted in
      block mode with their own lists. */
  lemma BlockKeysLinted(path: seq<string>, content: string, exec: Exec)
    requires Identity.IdentityOf(path).Returned? && Identity.IdentityOf(path).value in Constants.BlockKeys
    ensures Parsed(path, content, exec)
      == Returned(BlockRun(Constants.BlockLineRequirement(Identity.IdentityOf(path).value), exec, Scan(content)).diagnostics)
  {
    Constants.KeysDisjoint();
  }

  /** With the catalogue of constants.ts, `doParse` finds nothing to report
      for a key outside both tables, whatever the document holds. */
  lemma UnknownKeyQuiet(path: seq<string>, content: string, exec: Exec)
    requires Identity.IdentityOf(path).Returned?
    requires Identity.IdentityOf(path).value !in Constants.LineKeys
    requires Identity.IdentityOf(path).value !in Constants.BlockKeys
    ensures Parsed(path, content, exec) == Returned([])
  {
  }

  /** `doParse` throws exactly when the last path segment is `Navaids`. */
  lemma ParseThrowsIffNavaidsLast(path: seq<string>, content: string, exec: Exec)
    ensures Parsed(path, content, exec) == Threw <==> |path| > 0 && path[|path| - 1] == "Navaids"
  {
    Identity.ThrowsIffNavaidsLast(path);
  }

  /** An aerodrome's `Basic.txt` is linted in block mode with the name,
      position and frequency patterns, reported under those messages. */
  lemma AirportBasicLinted(above: seq<string>, airport: string, content: string, exec: Exec)
    requires !Identity.IsAnchor(airport)
    ensures Parsed(above + ["Airports", airport, "Basic.txt"], content, exec)
      == Returned(BlockRun([
           Requirement(NameLine, "Invalid aerodrome name"),
           Requirement(CoordinateLine, "Invalid aerodrome position"),
           Requirement(FrequencyLine, "Invalid aerodrome frequency")], exec, Scan(content)).diagnostics)
  {
    Identity.AirportFileIdentity(above, airport, ["Basic.txt"]);
    assert above + ["Airports", airport] + ["Basic.txt"] == above + ["Airports", airport, "Basic.txt"];
    assert "Basic.txt" in Constants.BlockKeys;
    BlockKeysLinted(above + ["Airports", airport, "Basic.txt"], content, exec);
  }
}
