/** `validateTextDocument` of server/src/server.ts: the engine of `doParse`
    with the server's own copy of the catalogue, fed by the document's URI,
    and publishing the diagnostics only for a key that a table knows. */
module Server {
  import opened Wrappers
  import opened JsString
  import opened Scanner
  import opened Rules
  import opened Patterns
  import opened Validation
  import Identity
  import Constants
  import Parser

  /** The server's `lineRequirements` entry under a key (meaningful for the
      same eighteen keys as the catalogue of constants.ts). */
  function ServerLineRequirement(key: string): Requirement {
    if key == "Airspace.txt" then Requirement(AirspaceLine, "Invalid airspace line")
    else if key == "Airspace_Bases.txt" then Requirement(AirspaceBaseLine, "Invalid airspace base line")
    else if key == "Centreline.txt" then Requirement(CoordinatePairLine, "Invalid centerline line")
    else if key == "Fixes.txt" then Requirement(FixLine, "Invalid fix line")
    else if key == "Positions.txt" then Requirement(PositionLine, "Invalid position line")
    else if key == "Positions_Mentor.txt" then Requirement(MentorPositionLine, "Invalid mentor position line")
    else if key == "Runway.txt" then Requirement(RunwayLine, "Invalid runway line")
    else if key == "Sids.txt" then Requirement(SidLine, "Invalid SID line")
    else if key == "Stars.txt" then Requirement(StarLine, "Invalid STAR line")
    else if key == "VRPs.txt" then Requirement(VrpLine, "Invalid VRP line")
    else if key == "SMR/Geo.txt" then Requirement(SmrGeoLine, "Invalid SMR geo line")
    else if key == "SMR/Labels.txt" then Requirement(SmrLabelLine, "Invalid SMR label line")
    else if key == "ATS Route" then Requirement(AtsRouteLine, "Invalid ATS Route line")
    else if key == "ATS Route Heli" then Requirement(CoordinatePairLine, "Invalid Helicopter ATS Route line")
    else if key == "Agreement" then Requirement(AgreementLine, "Invalid Agreement line")
    else if key == "ARTCC" then Requirement(ServerArtccLine, "Invalid Danger line")
    else if key == "Fixes" then Requirement(FixLine, "Invalid Fixes line")
    else Requirement(NdbVorLine, "Invalid NDB / VOR line")
  }

  /** The server's `blockLineRequirements` entry under a key. */
  function ServerBlockLineRequirement(key: string): (rules: seq<Requirement>)
    ensures 2 <= |rules| <= 3
  {
    if key == "SMR/Regions.txt" then [
      Requirement(RegionNameLine, "Invalid SMR region name line"),
      Requirement(RegionColourLine, "Invalid SMR region colour definition line"),
      Requirement(CoordinateLine, "Invalid SMR region coordinate line")
    ]
    else if key == "Ground_Network.txt" then [
      Requirement(GroundNetworkLine, "Invalid Ground Network line"),
      Requirement(GroundCoordinateLine, "Invalid Ground Network coordinate line")
    ]
    else [
      Requirement(NameLine, "Invalid aerodrome name"),
      Requirement(CoordinateLine, "Invalid aerodrome position"),
      Requirement(FrequencyLine, "Invalid aerodrome frequency")
    ]
  }

  /** The server's catalogue (`lineRequirementsMap`, `blockLineRequirementsMap`):
      the same key sets as constants.ts, every block list non-empty. */
  function ServerTables(): (c: Catalogue)
    ensures c.lineRequirements.Keys == Constants.LineKeys
    ensures c.blockLineRequirements.Keys == Constants.BlockKeys
    ensures BlocksNonEmpty(c)
  {
    Catalogue(
      map key | key in Constants.LineKeys :: ServerLineRequirement(key),
      map key | key in Constants.BlockKeys :: ServerBlockLineRequirement(key))
  }

  /** What one call of `validateTextDocument` does: `Returned(Some(ds))` when
      it sends `ds` for the document, `Returned(None)` when it returns without
      sending, `Threw` when the resolver's `TypeError` is raised, which, the
      function being `async`, rejects the promise it returns. */
  function Published(uri: string, text: string, exec: Exec): Outcome<Option<seq<Diagnostic>>> {
    Parser.Engine(ServerTables(), Split(uri, "/"), text, exec)
  }

  /** `validateTextDocument`: the URI split on `/`, then the same scan,
      lookup, preprocessing and validators as `doParse`. */
  method ValidateTextDocument(uri: string, text: string, exec: Exec) returns (r: Outcome<Option<seq<Diagnostic>>>)
    ensures r == Published(uri, text, exec)
  {
    var path := Split(uri, "/");
    r := Parser.RunEngine(ServerTables(), path, text, exec);
  }

  /** The block tables of the two catalogues are equal. */
  lemma BlockTablesAgree()
    ensures ServerTables().blockLineRequirements == Constants.Tables().blockLineRequirements
  {
    forall key | key in Constants.BlockKeys
      ensures ServerBlockLineRequirement(key) == Constants.BlockLineRequirement(key)
    {
    }
  }

  /** The single-pattern tables agree on every key but ARTCC. */
  lemma LineTablesAgree()
    ensures forall key :: key in Constants.LineKeys && key != "ARTCC" ==>
      ServerTables().lineRequirements[key] == Constants.Tables().lineRequirements[key]
  {
    forall key | key in Constants.LineKeys && key != "ARTCC"
      ensures ServerLineRequirement(key) == Constants.LineRequirement(key)
    {
    }
  }

  /** The two catalogues differ in one entry only: the server's ARTCC
      pattern is another regular expression, under the same message. */
  lemma CataloguesDiffer()
    ensures ServerTables().lineRequirements["ARTCC"] == Requirement(ServerArtccLine, "Invalid Danger line")
    ensures Constants.Tables().lineRequirements["ARTCC"] == Requirement(ArtccLine, "Invalid Danger line")
    ensures forall key :: key in Constants.LineKeys && key != "ARTCC" ==>
      ServerTables().lineRequirements[key] == Constants.Tables().lineRequirements[key]
    ensures ServerTables().blockLineRequirements == Constants.Tables().blockLineRequirements
  {
    assert "ARTCC" in Constants.LineKeys;
    LineTablesAgree();
    BlockTablesAgree();
  }

  /** For every key but ARTCC the server lints a document as `doParse` does. */
  lemma LintAgrees(key: string, text: string, exec: Exec)
    requires key != "ARTCC"
    ensures Parser.Lint(ServerTables(), key, text, exec) == Parser.Lint(Constants.Tables(), key, text, exec)
  {
    CataloguesDiffer();
  }

  /** Unless the document is an ARTCC file, the server publishes what
      `doParse` returns for the URI's segments, rejects its promise when
      `doParse` throws, and publishes nothing exactly when `doParse` finds
      no rules. */
  lemma ServerMatchesParser(uri: string, text: string, exec: Exec)
    requires Identity.IdentityOf(Split(uri, "/")) != Returned("ARTCC")
    ensures Published(uri, text, exec) == Threw <==> Parser.Parsed(Split(uri, "/"), text, exec) == Threw
    ensures Published(uri, text, exec) == Returned(None) ==> Parser.Parsed(Split(uri, "/"), text, exec) == Returned([])
    ensures forall ds :: Published(uri, text, exec) == Returned(Some(ds)) ==>
      Parser.Parsed(Split(uri, "/"), text, exec) == Returned(ds)
  {
    var outcome := Identity.IdentityOf(Split(uri, "/"));
    if outcome.Returned? {
      LintAgrees(outcome.value, text, exec);
    }
  }

  /** The server returns without sending exactly when the resolver gives a
      key that neither table knows. */
  lemma NotPublishedIffUnknown(uri: string, text: string, exec: Exec)
    ensures Published(uri, text, exec) == Returned(None) <==>
      Identity.IdentityOf(Split(uri, "/")).Returned?
      && Identity.IdentityOf(Split(uri, "/")).value !in Constants.LineKeys
      && Identity.IdentityOf(Split(uri, "/")).value !in Constants.BlockKeys
  {
  }

  /** An ARTCC file is linted line by line with the server's own pattern. */
  lemma ArtccLinted(uri: string, text: string, exec: Exec)
    requires Identity.IdentityOf(Split(uri, "/")) == Returned("ARTCC")
    ensures Published(uri, text, exec)
      == Returned(Some(SingleDiagnostics(Requirement(ServerArtccLine, "Invalid Danger line"), exec, Scan(text))))
  {
    CataloguesDiffer();
  }

  /** The segments of a URI ending in `/Airports/<airport>/Basic.txt`. */
  lemma AirportUriSegments(prefix: string, airport: string)
    requires '/' !in airport
    ensures Split(prefix + "/Airports/" + airport + "/Basic.txt", "/")
      == Split(prefix, "/") + ["Airports", airport, "Basic.txt"]
  {
    var parts := ["Airports", airport, "Basic.txt"];
    assert parts[1..] == [airport, "Basic.txt"] && parts[1..][1..] == ["Basic.txt"];
    assert Join(parts[1..], "/") == airport + "/" + "Basic.txt";
    assert Join(parts, "/") == "Airports" + "/" + (airport + "/" + "Basic.txt");
    assert prefix + "/Airports/" + airport + "/Basic.txt" == prefix + "/" + Join(parts, "/");
    assert '/' !in parts[0] && '/' !in parts[2];
    SplitJoin(parts, '/');
    SplitAround(prefix, Join(parts, "/"), '/');
  }

  /** The three block keys are linted in block mode with the server's lists. */
  lemma ServerBlockKeysLinted(uri: string, text: string, exec: Exec)
    requires Identity.IdentityOf(Split(uri, "/")).Returned?
    requires Identity.IdentityOf(Split(uri, "/")).value in Constants.BlockKeys
    ensures Published(uri, text, exec)
      == Returned(Some(BlockRun(ServerBlockLineRequirement(Identity.IdentityOf(Split(uri, "/")).value), exec, Scan(text)).diagnostics))
  {
    Constants.KeysDisjoint();
  }

  /** A document URI whose last three segments are `Airports`, an airport
      folder and `Basic.txt` is linted in block mode with the name, position
      and frequency patterns, whatever comes before. */
  lemma AirportUriLinted(prefix: string, airport: string, text: string, exec: Exec)
    requires '/' !in airport && !Identity.IsAnchor(airport)
    ensures Published(prefix + "/Airports/" + airport + "/Basic.txt", text, exec)
      == Returned(Some(BlockRun([
           Requirement(NameLine, "Invalid aerodrome name"),
           Requirement(CoordinateLine, "Invalid aerodrome position"),
           Requirement(FrequencyLine, "Invalid aerodrome frequency")], exec, Scan(text)).diagnostics))
  {
    var uri := prefix + "/Airports/" + airport + "/Basic.txt";
    var above := Split(prefix, "/");
    AirportUriSegments(prefix, airport);
    assert above + ["Airports", airport] + ["Basic.txt"] == Split(uri, "/");
    Identity.AirportFileIdentity(above, airport, ["Basic.txt"]);
    assert Identity.IdentityOf(Split(uri, "/")) == Returned("Basic.txt");
    assert "Basic.txt" in Constants.BlockKeys;
    ServerBlockKeysLinted(uri, text, exec);
  }
}
