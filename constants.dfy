/** The rule catalogue of server/src/constants.ts: the single-pattern table
    and the block table, keyed by identity. */
module Constants {
  import opened Rules
  import opened Patterns
  import Identity

  /** The keys of `lineRequirements`. */
  const LineKeys: set<string> := {
    "Airspace.txt", "Airspace_Bases.txt", "Centreline.txt", "Fixes.txt", "Positions.txt",
    "Positions_Mentor.txt", "Runway.txt", "Sids.txt", "Stars.txt", "VRPs.txt", "SMR/Geo.txt",
    "SMR/Labels.txt", "ATS Route", "ATS Route Heli", "Agreement", "ARTCC", "Fixes", "NDBVOR"}

  /** The keys of `blockLineRequirements`. */
  const BlockKeys: set<string> := {"SMR/Regions.txt", "Ground_Network.txt", "Basic.txt"}

  /** The entry of `lineRequirements` under a key (meaningful for `LineKeys`). */
  function LineRequirement(key: string): Requirement {
    if key == "Airspace.txt" then Requirement(AirspaceLine, "Invalid airspace line")
    else if key == "Airspace_Bases.txt" then Requirement(AirspaceBaseLine, "Invalid airspace base line")
    else if key == "Centreline.txt" then Requirement(CoordinatePairLine, "Invalid centerline line")
    else if key == "Fixes.txt" then Requirement(FixLine, "Invalid fix line")
    else if key == "Positions.txt" then Requirement(PositionLine, "Invalid position line")
    else if key == "Positions_Mentor.txt" then Requirement(MentorPositionLine, "Invalid mentor position line")
    else if key == "Runway.txt" then Requirement(RunwayLine, "Invalid runway line")
    else if key == "Sids.txt" then Requirement(SidLine, "Invalid SID line")
    else if key == "Stars.txt" then Requirement(StarLine, "Invalid STAR line")
    else if key == "VRPs.txt" then Requirement(VrpLine, "Invalid VRP line")
    else if key == "SMR/Geo.txt" then Requirement(SmrGeoLine, "Invalid SMR geo line")
    else if key == "SMR/Labels.txt" then Requirement(SmrLabelLine, "Invalid SMR label line")
    else if key == "ATS Route" then Requirement(AtsRouteLine, "Invalid ATS Route line")
    else if key == "ATS Route Heli" then Requirement(CoordinatePairLine, "Invalid Helicopter ATS Route line")
    else if key == "Agreement" then Requirement(AgreementLine, "Invalid Agreement line")
    else if key == "ARTCC" then Requirement(ArtccLine, "Invalid Danger line")
    else if key == "Fixes" then Requirement(FixLine, "Invalid Fixes line")
    else Requirement(NdbVorLine, "Invalid NDB / VOR line")
  }

  /** `lineRequirements` */
  function LineRequirements(): (m: map<string, Requirement>)
    ensures m.Keys == LineKeys
  {
    map key | key in LineKeys :: LineRequirement(key)
  }

  /** The entry of `blockLineRequirements` under a key (meaningful for `BlockKeys`). */
  function BlockLineRequirement(key: string): (rules: seq<Requirement>)
    ensures 2 <= |rules| <= 3
  {
    if key == "SMR/Regions.txt" then [
      Requirement(RegionNameLine, "Invalid SMR region name line"),
      Requirement(RegionColourLine, "Invalid SMR region colour definition line"),
      Requirement(CoordinateLine, "Invalid SMR region coordinate line")
    ]
    else if key == "Ground_Network.txt" then [
      Requirement(GroundNetworkLine, "Invalid Ground Network line"),
      Requirement(GroundCoordinateLine, "Invalid Ground Network coordinate line")
    ]
    else [
      Requirement(NameLine, "Invalid aerodrome name"),
      Requirement(CoordinateLine, "Invalid aerodrome position"),
      Requirement(FrequencyLine, "Invalid aerodrome frequency")
    ]
  }

  /** `blockLineRequirements` */
  function BlockLineRequirements(): (m: map<string, seq<Requirement>>)
    ensures m.Keys == BlockKeys
  {
    map key | key in BlockKeys :: BlockLineRequirement(key)
  }

  lemma KeysDisjoint()
    ensures LineKeys !! BlockKeys
  {
    assert "SMR/Regions.txt" !in LineKeys;
    assert "Ground_Network.txt" !in LineKeys;
    assert "Basic.txt" !in LineKeys;
  }

  lemma BlockSizes()
    ensures |BlockLineRequirements()["SMR/Regions.txt"]| == 3
    ensures |BlockLineRequirements()["Ground_Network.txt"]| == 2
    ensures |BlockLineRequirements()["Basic.txt"]| == 3
  {
    assert "SMR/Regions.txt" in BlockKeys && "Ground_Network.txt" in BlockKeys && "Basic.txt" in BlockKeys;
  }

  lemma FixedKeysListed()
    ensures Identity.FixedKeys <= LineKeys
  {
    assert "Agreement" in LineKeys && "ATS Route" in LineKeys && "ATS Route Heli" in LineKeys;
    assert "ARTCC" in LineKeys && "Fixes" in LineKeys && "NDBVOR" in LineKeys;
  }

  /** The catalogue `doParse` reads: exactly the two key sets above, with every
      block list non-empty (so the block cursor's index 0 exists). No key is in
      both tables (`KeysDisjoint`), and every key the resolver produces on its
      own has a single-pattern rule (`FixedKeysListed`). */
  function Tables(): (c: Catalogue)
    ensures c.lineRequirements.Keys == LineKeys
    ensures c.blockLineRequirements.Keys == BlockKeys
    ensures BlocksNonEmpty(c)
  {
    Catalogue(LineRequirements(), BlockLineRequirements())
  }
}
