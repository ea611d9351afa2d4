/** The aerodrome block of `Basic.txt` run with the reference shapes of the
    name, position and frequency patterns as the regex test. */
module Aerodrome {
  import opened JsString
  import opened Scanner
  import opened Rules
  import opened Patterns
  import opened Validation
  import opened Shapes

  /** The `Basic.txt` entry of `blockLineRequirements`. */
  const BasicRules: seq<Requirement> := [
    Requirement(NameLine, "Invalid aerodrome name"),
    Requirement(CoordinateLine, "Invalid aerodrome position"),
    Requirement(FrequencyLine, "Invalid aerodrome frequency")]

  /** A name, a position and a third line, for any regex test under which
      the name pattern takes the name but not the position and the position
      pattern takes the position but not the third line: the cursor ends on
      the frequency pattern, and the third line is reported, under the
      position's message, exactly when the frequency pattern rejects it. */
  lemma BasicRun(exec: Exec, name: Line, position: Line, frequency: Line)
    requires exec(NameLine, name.kept) && !exec(NameLine, position.kept)
    requires exec(CoordinateLine, position.kept) && !exec(CoordinateLine, frequency.kept)
    ensures BlockRun(BasicRules, exec, [name, position, frequency])
      == BlockState(2, if exec(FrequencyLine, frequency.kept) then [] else [Warn(frequency, "Invalid aerodrome position")])
  {
    assert [name, position, frequency][..2] == [name, position];
    assert [name, position][..1] == [name];
    assert [name][..0] == [];
    assert BlockRun(BasicRules, exec, [name]) == BlockState(0, []);
    assert BlockRun(BasicRules, exec, [name, position]) == BlockState(1, []);
  }

  /** The test of the three aerodrome patterns on lines without line terminators. */
  predicate ShapeTest(p: Pattern, s: string) {
    if p == NameLine then NameAccepts(s)
    else if p == CoordinateLine then Fits(SpaceCoordinate, s)
    else if p == FrequencyLine then FrequencyAccepts(s)
    else false
  }

  /** Under the shapes, the name pattern takes the name but not a position
      starting with `N0`, which the position pattern takes. */
  lemma OpeningShapes(name: Line, position: Line)
    requires NameAccepts(name.kept)
    requires Fits(SpaceCoordinate, position.kept) && StartsWith(position.kept, "N0")
    ensures ShapeTest(NameLine, name.kept) && !ShapeTest(NameLine, position.kept)
    ensures ShapeTest(CoordinateLine, position.kept)
  {
  }

  /** A name, a position north of the equator below 100 degrees, and an
      airband frequency raise nothing. */
  lemma WellFormedAerodrome(name: Line, position: Line, frequency: Line)
    requires NameAccepts(name.kept)
    requires Fits(SpaceCoordinate, position.kept) && StartsWith(position.kept, "N0")
    requires Fits(AirbandFrequency, frequency.kept)
    ensures BlockRun(BasicRules, ShapeTest, [name, position, frequency]) == BlockState(2, [])
  {
    NameExcludes(frequency.kept);
    CoordinateWidths();
    OpeningShapes(name, position);
    assert !ShapeTest(CoordinateLine, frequency.kept);
    assert ShapeTest(FrequencyLine, frequency.kept);
    BasicRun(ShapeTest, name, position, frequency);
  }

  /** A third line that is neither a position nor a frequency (`199.998`,
      say: `FrequencyRejected`) is reported with the message of the pattern
      tested first at that point, the position's, and not the frequency's. */
  lemma BadFrequencyReportedAsPosition(name: Line, position: Line, frequency: Line)
    requires NameAccepts(name.kept)
    requires Fits(SpaceCoordinate, position.kept) && StartsWith(position.kept, "N0")
    requires NoTerminators(frequency.kept)
    requires !Fits(SpaceCoordinate, frequency.kept) && !FrequencyAccepts(frequency.kept)
    ensures BlockRun(BasicRules, ShapeTest, [name, position, frequency])
      == BlockState(2, [Warn(frequency, "Invalid aerodrome position")])
  {
    OpeningShapes(name, position);
    assert !ShapeTest(CoordinateLine, frequency.kept);
    assert !ShapeTest(FrequencyLine, frequency.kept);
    BasicRun(ShapeTest, name, position, frequency);
  }
}
