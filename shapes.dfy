/** The fixed-width patterns of server/src/constants.ts written as
    sequences of pieces (a latitude, a longitude, the two coordinate layouts,
    a pair of coordinates, an aerodrome frequency), with `Fits` saying which
    strings such a pattern matches in full when it is anchored at both ends
    and the line holds no line terminator. The aerodrome name pattern, a
    negative look-ahead, is given as a predicate of its own. */
module Shapes {
  import opened JsString
  import opened Patterns

  const DigitSet: set<char> := set c | '0' <= c <= '9'

  /** A character class matched `count` times in a row (`[0-9]{3}`), or one
      literal character (`\.`, a space, a colon). */
  datatype Piece = Class(members: set<char>, count: nat) | Literal(c: char)

  /** `[0-9]{count}` */
  function Digits(count: nat): Piece {
    Class(DigitSet, count)
  }

  /** The characters a piece allows, position by position. */
  function PieceSlots(p: Piece): seq<set<char>> {
    match p
    case Class(members, count) => seq(count, _ => members)
    case Literal(c) => [{c}]
  }

  /** The characters a shape allows, position by position. */
  function Slots(shape: seq<Piece>): seq<set<char>>
    decreases |shape|
  {
    if |shape| == 0 then [] else PieceSlots(shape[0]) + Slots(shape[1..])
  }

  /** `s` is matched in full by the shape: one allowed character per position. */
  predicate Fits(shape: seq<Piece>, s: string) {
    |s| == |Slots(shape)| && forall i :: 0 <= i < |s| ==> s[i] in Slots(shape)[i]
  }

  /** `LatPattern` and `LonPattern`. */
  const Lat: seq<Piece> := [Class({'N', 'S'}, 1), Digits(3), Literal('.'), Digits(2), Literal('.'), Digits(2), Literal('.'), Digits(3)]
  const Lon: seq<Piece> := [Class({'E', 'W'}, 1), Digits(3), Literal('.'), Digits(2), Literal('.'), Digits(2), Literal('.'), Digits(3)]
  /** `SpaceCoordinatePattern`, `ColonCoordinatePattern`, and the body of
      `CoordinatePairLine`. */
  const SpaceCoordinate: seq<Piece> := Lat + [Literal(' ')] + Lon
  const ColonCoordinate: seq<Piece> := Lat + [Literal(':')] + Lon
  const CoordinatePair: seq<Piece> := SpaceCoordinate + [Literal(' ')] + SpaceCoordinate

  /** The two alternatives of `FrequencyLine`. */
  const AirbandFrequency: seq<Piece> :=
    [Literal('1'), Class({'1', '2', '3'}, 1), Digits(1), Literal('.'), Digits(2), Class({'0', '5'}, 1)]
  const NoFrequency: seq<Piece> :=
    [Literal('0'), Literal('0'), Literal('0'), Literal('.'), Literal('0'), Literal('0'), Literal('0')]

  /** What the frequency pattern accepts on a line without line terminators. */
  predicate FrequencyAccepts(s: string) {
    Fits(AirbandFrequency, s) || Fits(NoFrequency, s)
  }

  /** The characters that end a line for `^`, `$` and `.` under the `m` flag. */
  const LineTerminators: set<char> := {'\n', '\r', '\U{2028}', '\U{2029}'}

  /** `s` holds no line terminator. Splitting on CRLF can leave a lone `\n`
      or `\r` inside a line, so this is a real restriction. */
  predicate NoTerminators(s: string) {
    forall i :: 0 <= i < |s| ==> s[i] !in LineTerminators
  }

  /** What `NameLine` accepts on a line without line terminators: a
      non-empty line that starts neither with `1` nor with `N0`. */
  predicate NameAccepts(s: string) {
    |s| > 0 && NoTerminators(s) && !StartsWith(s, "1") && !StartsWith(s, "N0")
  }

  lemma {:induction false} SlotsAppend(a: seq<Piece>, b: seq<Piece>)
    ensures Slots(a + b) == Slots(a) + Slots(b)
    decreases |a|
  {
    if |a| == 0 {
      assert a + b == b;
    } else {
      assert (a + b)[0] == a[0] && (a + b)[1..] == a[1..] + b;
      SlotsAppend(a[1..], b);
      var h := PieceSlots(a[0]);
      assert Slots(a + b) == h + (Slots(a[1..]) + Slots(b));
      assert h + (Slots(a[1..]) + Slots(b)) == (h + Slots(a[1..])) + Slots(b);
    }
  }

  /** A string fits two shapes in a row exactly when its first part fits the
      first shape and the rest fits the second. */
  lemma FitsAppend(a: seq<Piece>, b: seq<Piece>, s: string)
    ensures Fits(a + b, s) <==> |Slots(a)| <= |s| && Fits(a, s[..|Slots(a)|]) && Fits(b, s[|Slots(a)|..])
  {
    SlotsAppend(a, b);
    var w := |Slots(a)|;
    if |Slots(a)| <= |s| && Fits(a, s[..w]) && Fits(b, s[w..]) {
      forall i | 0 <= i < |s| ensures s[i] in Slots(a + b)[i] {
        if i < w {
          assert s[..w][i] == s[i];
        } else {
          assert s[w..][i - w] == s[i];
        }
      }
    }
  }

  lemma LatWidth()
    ensures |Slots(Lat)| == 14 && |Slots(Lon)| == 14
  {
  }

  /** A space or colon coordinate is 29 characters, a pair of space
      coordinates 59. */
  lemma CoordinateWidths()
    ensures |Slots(SpaceCoordinate)| == 29 && |Slots(ColonCoordinate)| == 29
    ensures |Slots(CoordinatePair)| == 59
  {
    LatWidth();
    SlotsAppend(Lat + [Literal(' ')], Lon);
    SlotsAppend(Lat, [Literal(' ')]);
    SlotsAppend(Lat + [Literal(':')], Lon);
    SlotsAppend(Lat, [Literal(':')]);
    SlotsAppend(SpaceCoordinate + [Literal(' ')], SpaceCoordinate);
    SlotsAppend(SpaceCoordinate, [Literal(' ')]);
  }

  /** A centreline or helicopter-route line is exactly two space coordinates
      with one space between them. */
  lemma PairSplits(s: string)
    ensures Fits(CoordinatePair, s) <==>
      |s| == 59 && Fits(SpaceCoordinate, s[..29]) && s[29] == ' ' && Fits(SpaceCoordinate, s[30..])
  {
    CoordinateWidths();
    SlotsAppend(SpaceCoordinate, [Literal(' ')]);
    FitsAppend(SpaceCoordinate + [Literal(' ')], SpaceCoordinate, s);
    if 30 <= |s| {
      FitsAppend(SpaceCoordinate, [Literal(' ')], s[..30]);
      assert s[..30][..29] == s[..29];
      assert s[..30][29..] == [s[29]];
    }
  }

  /** A space coordinate is a latitude, one space and a longitude. */
  lemma CoordinateSplits(s: string)
    ensures Fits(SpaceCoordinate, s) <==>
      |s| == 29 && Fits(Lat, s[..14]) && s[14] == ' ' && Fits(Lon, s[15..])
  {
    LatWidth();
    SlotsAppend(Lat, [Literal(' ')]);
    FitsAppend(Lat + [Literal(' ')], Lon, s);
    if 15 <= |s| {
      FitsAppend(Lat, [Literal(' ')], s[..15]);
      assert s[..15][..14] == s[..14];
      assert s[..15][14..] == [s[14]];
    }
  }

  /** The characters a latitude allows, position by position. */
  lemma LatSlots()
    ensures Slots(Lat) == [{'N', 'S'}, DigitSet, DigitSet, DigitSet, {'.'}, DigitSet, DigitSet, {'.'},
                           DigitSet, DigitSet, {'.'}, DigitSet, DigitSet, DigitSet]
  {
    assert PieceSlots(Digits(2)) == [DigitSet, DigitSet];
    assert PieceSlots(Digits(3)) == [DigitSet, DigitSet, DigitSet];
  }

  /** A latitude is a hemisphere letter, then digits and dots in the layout
      ddd.dd.dd.ddd. */
  lemma LatLayout(s: string)
    requires Fits(Lat, s)
    ensures |s| == 14 && (s[0] == 'N' || s[0] == 'S')
    ensures s[4] == '.' && s[7] == '.' && s[10] == '.'
    ensures forall i :: 0 < i < 14 && i != 4 && i != 7 && i != 10 ==> '0' <= s[i] <= '9'
  {
    LatSlots();
    assert s[0] in Slots(Lat)[0];
    assert s[4] in Slots(Lat)[4] && s[7] in Slots(Lat)[7] && s[10] in Slots(Lat)[10];
    forall i | 0 < i < 14 && i != 4 && i != 7 && i != 10 ensures '0' <= s[i] <= '9' {
      assert s[i] in Slots(Lat)[i];
    }
  }

  lemma LatExample()
    ensures Fits(Lat, "N051.28.29.000")
    ensures !Fits(Lat, "N51.28.29.000")
  {
    LatSlots();
  }

  /** The characters the two frequency alternatives allow. */
  lemma FrequencySlots()
    ensures Slots(AirbandFrequency) == [{'1'}, {'1', '2', '3'}, DigitSet, {'.'}, DigitSet, DigitSet, {'0', '5'}]
    ensures Slots(NoFrequency) == [{'0'}, {'0'}, {'0'}, {'.'}, {'0'}, {'0'}, {'0'}]
  {
    assert PieceSlots(Digits(2)) == [DigitSet, DigitSet];
  }

  /** The pattern takes a frequency with a 1 and then 1, 2 or 3, two digits
      after the point and a last digit 0 or 5, and the placeholder 000.000. */
  lemma FrequencyAccepted()
    ensures FrequencyAccepts("118.505") && FrequencyAccepts("121.775") && FrequencyAccepts("000.000")
  {
    FrequencySlots();
  }

  /** It rejects a second digit above 3, a last digit other than 0 or 5, and
      a short frequency. */
  lemma FrequencyRejected()
    ensures !FrequencyAccepts("199.998") && !FrequencyAccepts("118.503") && !FrequencyAccepts("118.50")
  {
    FrequencySlots();
    assert "199.998"[1] !in Slots(AirbandFrequency)[1] && "199.998"[0] !in Slots(NoFrequency)[0];
    assert "118.503"[6] !in Slots(AirbandFrequency)[6] && "118.503"[0] !in Slots(NoFrequency)[0];
  }

  /** In the aerodrome block, the name pattern never takes an airband
      frequency, nor a position north of the equator below 100 degrees. */
  lemma NameExcludes(s: string)
    ensures Fits(AirbandFrequency, s) ==> !NameAccepts(s)
    ensures Fits(SpaceCoordinate, s) ==> |s| == 29 && (s[0] == 'N' && s[1] == '0' ==> !NameAccepts(s))
  {
    CoordinateWidths();
    if Fits(SpaceCoordinate, s) && s[0] == 'N' && s[1] == '0' {
      assert s[..2] == "N0";
    }
    if Fits(AirbandFrequency, s) {
      FrequencySlots();
      assert s[0] in Slots(AirbandFrequency)[0];
      assert s[..1] == "1";
    }
  }

  /** A name is accepted, and a lone `\n` before a `1` (where the multiline
      `^` would sit at the `1`) is not described by the name shape. */
  lemma NameExample()
    ensures NameAccepts("EGLL Heathrow")
    ensures !NameAccepts("\n1") && !NameAccepts("N051.28.29.000 W000.27.41.000")
  {
    assert "EGLL Heathrow"[0] == 'E' && "EGLL Heathrow"[1] == 'G';
    assert "EGLL Heathrow"[..1] != "1" && "EGLL Heathrow"[..2] != "N0";
    assert "\n1"[0] in LineTerminators;
    assert "N051.28.29.000 W000.27.41.000"[..2] == "N0";
  }
}
