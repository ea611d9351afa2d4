/** The regular expressions of the two rule catalogues. Each is compiled once
    with the `m` flag and no `g` flag, so a test depends on its source text
    and the line only; a `Pattern` names one source text, and `Source` gives
    that text, as `RegExp.prototype.source` would.

    `Source` and the text constants below document which regular expression
    each `Pattern` stands for; no proof reads them. The validators take the
    test as a parameter (`Validation.Exec`), and the reference shapes in `Shapes`
    are written from these texts by hand. */
module Patterns {

  /** A latitude: hemisphere letter, then degrees, minutes, seconds, thousandths. */
  const LatPattern: string := @"[NS][0-9]{3}\.[0-9]{2}\.[0-9]{2}\.[0-9]{3}"
  /** A longitude, in the same layout as a latitude. */
  const LonPattern: string := @"[EW][0-9]{3}\.[0-9]{2}\.[0-9]{2}\.[0-9]{3}"

  const SpaceCoordinatePattern: string := LatPattern + " " + LonPattern
  const ColonCoordinatePattern: string := LatPattern + ":" + LonPattern

  /** The `@ARC(...)` alternative shared by airspace and danger-area lines. */
  const ArcPattern: string :=
    @"(?:^@ARC\(region [A-Za-z0-9/\- ]+? centre " + SpaceCoordinatePattern + @" radius [0-9]+(?:\.[0-9]+)?\)$)"

  /** The tail shared by the two position tables. */
  const PositionTail: string :=
    @":(?:DEL|PLN|TWR|GND|APP|CTR|ATIS):(?:[A-Z_]+|-):(?:[A-Z_]+|-):(?:\d{4}|-|):(?:\d{4}|-|):(?:(?:"
    + LatPattern + @")|):(?:(?:" + LonPattern + @")|)::$"

  /** The distinct regular expressions of the catalogues. */
  datatype Pattern =
    | AirspaceLine | AirspaceBaseLine | CoordinatePairLine | FixLine | PositionLine
    | MentorPositionLine | RunwayLine | SidLine | StarLine | VrpLine | SmrGeoLine
    | SmrLabelLine | AtsRouteLine | AgreementLine | ArtccLine | NdbVorLine
    | RegionNameLine | RegionColourLine | CoordinateLine | GroundNetworkLine
    | GroundCoordinateLine | NameLine | FrequencyLine
    | ServerArtccLine

  /** The source text of each regular expression. */
  function Source(p: Pattern): string {
    match p
    case AirspaceLine =>
      @"(?:^.+? " + SpaceCoordinatePattern + " " + SpaceCoordinatePattern + @"$)|" + ArcPattern
    case AirspaceBaseLine =>
      "^" + ColonCoordinatePattern + @":[A-Za-z0-9 ]+?:(?:\d+'E?.*?$)|(?:FL\d+\*?E?$)"
    // two space coordinates separated by a space: centrelines and helicopter routes
    case CoordinatePairLine => "^" + SpaceCoordinatePattern + " " + SpaceCoordinatePattern + "$"
    case FixLine => @"^[A-Z0-9]+ " + SpaceCoordinatePattern + "$"
    case PositionLine =>
      @"^[A-Z]+[A-Z0-9_\-]+:.+?:1\d{2}\.\d{3}:[A-Z0-9]{1,4}:[A-Z0-9]+:[A-Z+\-~]+" + PositionTail
    case MentorPositionLine =>
      @"^[A-Z]+[A-Z0-9_\-]+:.+?:199.998:[A-Z0-9]{1,4}:[A-Z0-9]+:[A-Z+\-~_]+" + PositionTail
    case RunwayLine =>
      @"^[0-9]{2}[LCRG ]? [0-9]{2}[LCRG ]? [0-9]{3} [0-9]{3} " + SpaceCoordinatePattern + " " + SpaceCoordinatePattern + "$"
    case SidLine =>
      @"^SID:[A-Z]{4}:\d{2}(?:[LCRG]|):#?[A-Z\- ]+(?:\d+(?:[A-Z]|\d)?)?:(?:[A-Z0-9]+ )*(?:[A-Z0-9]+)$"
    case StarLine =>
      @"^STAR:[A-Z]{4}:\d{2}(?:[LCRG]|):#?(?:old)?[A-Z\- ]+(?:\d+(?:[A-Z]|\d)?)?:(?:[A-Z0-9]+ )*(?:[A-Z0-9]+)$"
    case VrpLine => @"^\*[^:]+:" + ColonCoordinatePattern + "$"
    case SmrGeoLine =>
      @"(?:^EG[A-Z]{2} .* S999\.00\.00\.000 E999\.00\.00\.000 S999\.00\.00\.000 E999\.00\.00\.000$)|(?:^"
      + SpaceCoordinatePattern + " " + SpaceCoordinatePattern + @" [A-Za-z0-9]+$)"
    case SmrLabelLine => @"^"".+?"" +" + SpaceCoordinatePattern + @" [A-Za-z0-9]+$"
    case AtsRouteLine => @"^([A-Z ]{5}) \1 ([A-Z]{3,5}) {0,2} \2 {0,2}$"
    case AgreementLine =>
      @"^(?:FIR_COPX|COPX):(?:\*|[A-Z0-9]{3,5}):(?:\*|[0-9LRCG]+):(?:\*|[A-Z0-9]{3,5}):(?:\*|[A-Z]{3,5}):(?:\*|[0-9LRCG]+):.*?:.*?:(?:\*|[0-9]+):(?:\*|[0-9]+):[A-Za-z0-9+-^#|]+$"
    case ArtccLine =>
      @"(?:^[A-Za-z0-9-() ]+?(?:([A-Z ]{5}) +\1 +)|(?:" + SpaceCoordinatePattern
      + @") (?:([A-Z ]{5}) +\2 +)|(?:" + SpaceCoordinatePattern + @")$)|" + ArcPattern
    case NdbVorLine => @"^[A-Z0-9 ]+ [0-9]{3}\.[0-9]{3} " + SpaceCoordinatePattern + "$"
    case RegionNameLine => @"^REGIONNAME .+$"
    case RegionColourLine => @"^[A-Za-z0-9]+ " + SpaceCoordinatePattern + "$"
    // one space coordinate: SMR region points and aerodrome positions
    case CoordinateLine => "^" + SpaceCoordinatePattern + "$"
    case GroundNetworkLine => @"(?:^EXIT:[0-9LCRG]+:.+?:.+?:.+$|^TAXI:.+?:.+?(?::.+)?$)"
    case GroundCoordinateLine => "^COORD:" + ColonCoordinatePattern + "$"
    case NameLine => @"^(?!1|N0).+$"
    case FrequencyLine => @"(?:^1[1-3][0-9]\.[0-9]{2}[05]$)|(?:^000\.000$)"
    // the ARTCC entry of the catalogue in server/src/server.ts
    case ServerArtccLine => @"^[A-Za-z0-9- ]+?" + SpaceCoordinatePattern + " " + SpaceCoordinatePattern + "$"
  }
}
