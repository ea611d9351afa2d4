/** The identity resolver: from the segments of a file's path to the key
    under which its rules are filed (`doParse`'s backwards scan). */
module Identity {
  import opened Wrappers
  import opened JsString

  /** The segments the backwards scan reacts to. */
  predicate IsAnchor(segment: string) {
    segment == "Airports" || segment == "Agreements" || segment == "ATS%20Routes"
    || segment == "ARTCC" || segment == "Navaids"
  }

  /** Folders under `ATS%20Routes` whose files all share the "ATS Route" grammar. */
  predicate IsFixedRouteFolder(segment: string) {
    segment == "Other" || segment == "RNAV" || segment == "Conventional%20-%20Non-UK"
  }

  /** The anchor nearest the end of the path, if there is one. */
  function LastAnchor(path: seq<string>): (r: Option<nat>)
    ensures r.None? <==> forall i :: 0 <= i < |path| ==> !IsAnchor(path[i])
    ensures r.Some? ==> r.value < |path| && IsAnchor(path[r.value])
    ensures r.Some? ==> forall i :: r.value < i < |path| ==> !IsAnchor(path[i])
    decreases |path|
  {
    if |path| == 0 then None
    else if IsAnchor(path[|path| - 1]) then Some(|path| - 1)
    else LastAnchor(path[..|path| - 1])
  }

  /** The anchor at `i` is the last one exactly when no later segment is an anchor. */
  lemma LastAnchorAt(path: seq<string>, i: nat)
    requires i < |path| && IsAnchor(path[i])
    requires forall j :: i < j < |path| ==> !IsAnchor(path[j])
    ensures LastAnchor(path) == Some(i)
  {
  }

  /** The segment list that one anchor leaves behind (or the throw it causes). */
  function ApplyAnchor(path: seq<string>, i: nat): Outcome<seq<string>>
    requires i < |path| && IsAnchor(path[i])
  {
    var anchor := path[i];
    if anchor == "Airports" then
      // `path.slice(i + 2)`: empty when fewer than two segments follow
      Returned(if i + 2 <= |path| then path[i + 2..] else [])
    else if anchor == "Agreements" then Returned(["Agreement"])
    else if anchor == "ATS%20Routes" then
      if i + 1 < |path| && IsFixedRouteFolder(path[i + 1]) then Returned(["ATS Route"])
      else if i + 1 < |path| && path[i + 1] == "Helicopter" then Returned(["ATS Route Heli"])
      else Returned(path)
    else if anchor == "ARTCC" then Returned(["ARTCC"])
    else if i + 1 == |path| then Threw  // `path[i+1]` is undefined
    else if StartsWith(path[i + 1], "FIXES") || StartsWith(path[i + 1], "Fixes") then Returned(["Fixes"])
    else Returned(["NDBVOR"])
  }

  /** The segment list `path` holds when the scan ends: the last anchor decides,
      and a path without anchors is left as it is. */
  function Resolve(path: seq<string>): Outcome<seq<string>> {
    match LastAnchor(path)
    case None => Returned(path)
    case Some(i) => ApplyAnchor(path, i)
  }

  /** The lookup key, `path.join('/')` after the scan. */
  function IdentityOf(path: seq<string>): Outcome<string> {
    match Resolve(path)
    case Threw => Threw
    case Returned(segments) => Returned(Join(segments, "/"))
  }

  /** The keys the resolver can produce without taking them from the path. */
  const FixedKeys: set<string> := {"Agreement", "ATS Route", "ATS Route Heli", "ARTCC", "Fixes", "NDBVOR"}

  /** The branches of the backwards scan that end it: the segment list an
      anchor other than `Navaids` leaves behind. */
  method StopAt(path: seq<string>, i: nat) returns (rewritten: seq<string>)
    requires i < |path| && IsAnchor(path[i]) && path[i] != "Navaids"
    ensures ApplyAnchor(path, i) == Returned(rewritten)
  {
    var next := if i + 1 < |path| then Some(path[i + 1]) else None;
    rewritten := path;
    if path[i] == "Airports" {
      rewritten := if i + 2 <= |path| then path[i + 2..] else [];
    } else if path[i] == "Agreements" {
      rewritten := ["Agreement"];
    } else if path[i] == "ATS%20Routes" {
      if next == Some("Other") {
        rewritten := ["ATS Route"];
      } else if next == Some("RNAV") {
        rewritten := ["ATS Route"];
      } else if next == Some("Conventional%20-%20Non-UK") {
        rewritten := ["ATS Route"];
      } else if next == Some("Helicopter") {
        rewritten := ["ATS Route Heli"];
      }
    } else {
      rewritten := ["ARTCC"];
    }
  }

  /** The backwards scan of `doParse`, written as the loop it is: `path` is
      reassigned, every anchor but `Navaids` ends the scan, and indices past
      the end of the reassigned `path` read `undefined`. */
  method ResolvePath(segments: seq<string>) returns (r: Outcome<seq<string>>)
    ensures r == Resolve(segments)
  {
    var path := segments;
    var i: int := |path| - 1;
    ghost var rewritten := false;
    while i >= 0
      invariant -1 <= i < |segments|
      invariant !rewritten ==> path == segments
      invariant !rewritten ==> forall j :: i < j < |segments| ==> !IsAnchor(segments[j])
      invariant rewritten ==> Resolve(segments) == Returned(path)
      invariant rewritten ==> path == ["Fixes"] || path == ["NDBVOR"]
      decreases i + 1
    {
      var segment := if i < |path| then Some(path[i]) else None;
      var next := if i + 1 < |path| then Some(path[i + 1]) else None;
      if segment.Some? && IsAnchor(segment.value) && segment.value != "Navaids" {
        LastAnchorAt(segments, i);
        path := StopAt(path, i);
        break;
      } else if segment == Some("Navaids") {
        LastAnchorAt(segments, i);
        if next.None? {
          return Threw;  // `path[i+1].startsWith` on `undefined`
        }
        if StartsWith(next.value, "FIXES") || StartsWith(next.value, "Fixes") {
          path := ["Fixes"];
        } else {
          path := ["NDBVOR"];
        }
        rewritten := true;
      }
      i := i - 1;
    }
    if !rewritten && i < 0 {
      assert LastAnchor(segments).None?;
    }
    r := Returned(path);
  }

  /** A file under an airport folder is filed under the segments after the
      airport's own folder, joined by `/`; the key is empty for a file
      directly inside `Airports` or inside the airport folder's parent. */
  lemma AirportFileIdentity(above: seq<string>, airport: string, rest: seq<string>)
    requires !IsAnchor(airport) && forall j :: 0 <= j < |rest| ==> !IsAnchor(rest[j])
    ensures IdentityOf(above + ["Airports", airport] + rest) == Returned(Join(rest, "/"))
    ensures IdentityOf(above + ["Airports"]) == Returned("")
  {
    var path := above + ["Airports", airport] + rest;
    LastAnchorAt(path, |above|);
    assert path[|above| + 2..] == rest;
    LastAnchorAt(above + ["Airports"], |above|);
  }

  /** The scan stops at the last anchor: agreement, ARTCC and route folders
      give their fixed keys, a route folder with any other sub-folder leaves
      the path as it is. */
  lemma FolderIdentity(above: seq<string>, anchor: string, next: string, rest: seq<string>)
    requires IsAnchor(anchor) && anchor != "Airports" && anchor != "Navaids"
    requires !IsAnchor(next) && forall j :: 0 <= j < |rest| ==> !IsAnchor(rest[j])
    ensures var path := above + [anchor, next] + rest;
      IdentityOf(path) == Returned(
        if anchor == "Agreements" then "Agreement"
        else if anchor == "ARTCC" then "ARTCC"
        else if IsFixedRouteFolder(next) then "ATS Route"
        else if next == "Helicopter" then "ATS Route Heli"
        else Join(path, "/"))
  {
    var path := above + [anchor, next] + rest;
    LastAnchorAt(path, |above|);
    assert path[|above| + 1] == next;
  }

  /** A `Navaids` folder gives "Fixes" for a following segment that starts
      with `FIXES` or `Fixes` and "NDBVOR" for any other; the scan goes on
      past it but finds nothing that changes that. */
  lemma NavaidIdentity(above: seq<string>, next: string, rest: seq<string>)
    requires !IsAnchor(next) && forall j :: 0 <= j < |rest| ==> !IsAnchor(rest[j])
    ensures IdentityOf(above + ["Navaids", next] + rest)
      == Returned(if StartsWith(next, "FIXES") || StartsWith(next, "Fixes") then "Fixes" else "NDBVOR")
  {
    var path := above + ["Navaids", next] + rest;
    LastAnchorAt(path, |above|);
    assert path[|above| + 1] == next;
  }

  /** The resolver throws exactly when the last segment is `Navaids`. */
  lemma ThrowsIffNavaidsLast(path: seq<string>)
    ensures Resolve(path) == Threw <==> |path| > 0 && path[|path| - 1] == "Navaids"
  {
    if |path| > 0 && path[|path| - 1] == "Navaids" {
      LastAnchorAt(path, |path| - 1);
    }
  }

  /** Every key the scan produces from an anchor other than `Airports` is one
      of the fixed keys, or else the whole path joined (a route folder with an
      unknown sub-folder). */
  lemma AnchoredKeys(path: seq<string>)
    requires LastAnchor(path).Some? && path[LastAnchor(path).value] != "Airports"
    requires IdentityOf(path).Returned?
    ensures IdentityOf(path).value in FixedKeys || IdentityOf(path).value == Join(path, "/")
  {
  }

  /** Concrete resolutions: airport files keep the path below the airport folder. */
  lemma AirportBasicExample()
    ensures IdentityOf(["c%3A", "uksf2", "Airports", "EGLL", "Basic.txt"]) == Returned("Basic.txt")
  {
    AirportFileIdentity(["c%3A", "uksf2"], "EGLL", ["Basic.txt"]);
    assert ["c%3A", "uksf2"] + ["Airports", "EGLL"] + ["Basic.txt"] == ["c%3A", "uksf2", "Airports", "EGLL", "Basic.txt"];
  }

  /** A file under an airport's sub-folder keeps the sub-folder in its key. */
  lemma AirportSmrExample()
    ensures IdentityOf(["c%3A", "uksf2", "Airports", "EGLL", "SMR", "Geo.txt"]) == Returned("SMR/Geo.txt")
  {
    AirportFileIdentity(["c%3A", "uksf2"], "EGLL", ["SMR", "Geo.txt"]);
    assert ["c%3A", "uksf2"] + ["Airports", "EGLL"] + ["SMR", "Geo.txt"] == ["c%3A", "uksf2", "Airports", "EGLL", "SMR", "Geo.txt"];
    assert ["SMR", "Geo.txt"][1..] == ["Geo.txt"];
    assert Join(["SMR", "Geo.txt"], "/") == "SMR" + "/" + "Geo.txt" == "SMR/Geo.txt";
  }

  /** An agreement file resolves to the agreement key. */
  lemma AgreementExample()
    ensures IdentityOf(["c%3A", "uksf2", "Agreements", "x.txt"]) == Returned("Agreement")
  {
    FolderIdentity(["c%3A", "uksf2"], "Agreements", "x.txt", []);
    assert ["c%3A", "uksf2"] + ["Agreements", "x.txt"] + [] == ["c%3A", "uksf2", "Agreements", "x.txt"];
  }

  /** A helicopter-route file resolves to the helicopter route key. */
  lemma HelicopterExample()
    ensures IdentityOf(["c%3A", "uksf2", "ATS%20Routes", "Helicopter", "y.txt"]) == Returned("ATS Route Heli")
  {
    FolderIdentity(["c%3A", "uksf2"], "ATS%20Routes", "Helicopter", ["y.txt"]);
    assert ["c%3A", "uksf2"] + ["ATS%20Routes", "Helicopter"] + ["y.txt"] == ["c%3A", "uksf2", "ATS%20Routes", "Helicopter", "y.txt"];
  }

  /** Concrete resolutions: navaid files, and the throw when `Navaids` ends the path. */
  lemma FixesExample()
    ensures IdentityOf(["c%3A", "uksf2", "Navaids", "FIXES_UK.txt"]) == Returned("Fixes")
  {
    NavaidIdentity(["c%3A", "uksf2"], "FIXES_UK.txt", []);
    assert ["c%3A", "uksf2"] + ["Navaids", "FIXES_UK.txt"] + [] == ["c%3A", "uksf2", "Navaids", "FIXES_UK.txt"];
    assert "FIXES_UK.txt"[..5] == "FIXES";
  }

  /** Any other navaid file is an NDB / VOR file. */
  lemma NdbVorExample()
    ensures IdentityOf(["c%3A", "uksf2", "Navaids", "VOR_UK.txt"]) == Returned("NDBVOR")
  {
    NavaidIdentity(["c%3A", "uksf2"], "VOR_UK.txt", []);
    assert ["c%3A", "uksf2"] + ["Navaids", "VOR_UK.txt"] + [] == ["c%3A", "uksf2", "Navaids", "VOR_UK.txt"];
    assert "VOR_UK.txt"[..5] != "FIXES" && "VOR_UK.txt"[..5] != "Fixes" by {
      assert "VOR_UK.txt"[0] == 'V';
    }
  }

  /** `Navaids` as the last segment reads past the end of the path and throws. */
  lemma NavaidsLastExample()
    ensures IdentityOf(["c%3A", "uksf2", "Navaids"]) == Threw
  {
    ThrowsIffNavaidsLast(["c%3A", "uksf2", "Navaids"]);
  }
}
