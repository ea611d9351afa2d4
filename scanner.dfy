/** The line scanner: split on CRLF, skip blank and comment lines, cut
    inline comments with the spaces before them, and keep the raw offset. */
module Scanner {
  import opened Wrappers
  import opened JsString

  const Crlf: string := "\r\n"

  /** A line the validators see: its number among the raw lines, the raw text,
      the text that is tested, and the offset range a diagnostic for it gets. */
  datatype Line = Line(number: nat, raw: string, kept: string, start: nat, end: nat)

  /** The index reached by walking back from `i` over the spaces before it. */
  function SpacesBefore(s: string, i: nat): (j: nat)
    requires i <= |s|
    ensures j <= i
    decreases i
  {
    if i > 0 && s[i - 1] == ' ' then SpacesBefore(s, i - 1) else i
  }

  /** The walk stops at the first non-space, or at the start, and passes
      only spaces. */
  lemma {:induction false} SpacesBeforeFacts(s: string, i: nat)
    requires i <= |s|
    ensures forall k :: SpacesBefore(s, i) <= k < i ==> s[k] == ' '
    ensures SpacesBefore(s, i) == 0 || s[SpacesBefore(s, i) - 1] != ' '
    decreases i
  {
    if i > 0 && s[i - 1] == ' ' {
      SpacesBeforeFacts(s, i - 1);
    }
  }

  /** The text of a line that is tested: everything before the first `;`,
      less the spaces just before it. */
  function StripComment(raw: string): (kept: string)
    ensures |kept| <= |raw|
  {
    var index := IndexOf(raw, ';');
    if index == -1 then raw else raw[..SpacesBefore(raw, index)]
  }

  /** The kept text is a prefix of the raw line; without a `;` it is the whole
      line; with one, it holds no `;`, does not end in a space, and only
      spaces lie between it and the first `;`. */
  lemma StripCommentFacts(raw: string)
    ensures StripComment(raw) == raw[..|StripComment(raw)|]
    ensures ';' !in raw ==> StripComment(raw) == raw
    ensures ';' in raw ==> ';' !in StripComment(raw)
    ensures ';' in raw ==> |StripComment(raw)| == 0 || StripComment(raw)[|StripComment(raw)| - 1] != ' '
    ensures ';' in raw ==> forall k :: |StripComment(raw)| <= k < IndexOf(raw, ';') ==> raw[k] == ' '
  {
    var index := IndexOf(raw, ';');
    if index != -1 {
      var cut := SpacesBefore(raw, index);
      SpacesBeforeFacts(raw, index);
      assert raw[..cut] == raw[..index][..cut];
    }
  }

  /** The cut of `doParse`: walk back over the spaces before the first `;`
      and truncate there. */
  method CutComment(line: string, index0: int) returns (kept: string)
    requires index0 == IndexOf(line, ';') && index0 != -1
    ensures kept == StripComment(line)
  {
    var index := index0;
    while index > 0 && line[index - 1] == ' '
      invariant 0 <= index <= index0
      invariant SpacesBefore(line, index) == SpacesBefore(line, index0)
      decreases index
    {
      index := index - 1;
    }
    kept := line[..index];
  }

  /** What the scanner makes of one raw line: nothing for an empty line or a
      line starting with `;`, else the kept text. */
  function Retained(raw: string): (r: Option<string>)
    ensures r.None? <==> |raw| == 0 || raw[0] == ';'
    ensures r.Some? ==> r.value == StripComment(raw)
  {
    if |raw| == 0 then None
    else if StartsWith(raw, ";") then None
    else Some(StripComment(raw))
  }

  /** A line of spaces and then a comment is not skipped: its kept text is
      empty, and it is still tested. */
  lemma SpacesThenComment(spaces: string, rest: string)
    requires |spaces| > 0 && forall k :: 0 <= k < |spaces| ==> spaces[k] == ' '
    ensures Retained(spaces + ";" + rest) == Some("")
  {
    var raw := spaces + ";" + rest;
    assert raw[|spaces|] == ';' && raw[..|spaces|] == spaces;
    assert forall k :: 0 <= k < |spaces| ==> raw[k] == ' ';
    SpacesBeforeFacts(raw, IndexOf(raw, ';'));
  }

  /** The preprocessing of one raw line in `doParse`: an empty line or a
      line starting with `;` is skipped and the offset moves past it with its
      terminator; otherwise the comment and the spaces before it are cut and
      the offset moves to the start of the kept text's range. */
  method Preprocess(line: string, offset: nat) returns (kept: Option<string>, next: nat)
    ensures kept == Retained(line)
    ensures kept.None? ==> next == offset + |line| + 2
    ensures kept.Some? ==> |kept.value| <= |line| && next == offset + |line| - |kept.value|
  {
    if |line| == 0 {
      return None, offset + 2;
    } else if StartsWith(line, ";") {
      return None, offset + |line| + 2;
    }
    var cut := line;
    next := offset;
    var index := IndexOf(line, ';');
    if index != -1 {
      var initialLen := |line|;
      cut := CutComment(line, index);
      next := offset + (initialLen - |cut|);
    }
    kept := Some(cut);
  }

  /** The offset of the first character after `raws`: every raw line counts
      its length plus the two characters of its terminator. */
  function RawOffset(raws: seq<string>): nat
    decreases |raws|
  {
    if |raws| == 0 then 0 else RawOffset(raws[..|raws| - 1]) + |raws[|raws| - 1]| + 2
  }

  /** The line for raw line `number`, which begins at `lineStart`. The range
      ends where the raw line ends and is as long as the kept text. */
  function LineAt(number: nat, raw: string, lineStart: nat): seq<Line> {
    match Retained(raw)
    case None => []
    case Some(kept) => [Line(number, raw, kept, lineStart + |raw| - |kept|, lineStart + |raw|)]
  }

  /** The lines the validators see, for a sequence of raw lines. */
  function ScanLines(raws: seq<string>): seq<Line>
    decreases |raws|
  {
    if |raws| == 0 then []
    else
      var before := raws[..|raws| - 1];
      ScanLines(before) + LineAt(|raws| - 1, raws[|raws| - 1], RawOffset(before))
  }

  /** The lines the validators see, for a document. */
  function Scan(text: string): seq<Line> {
    ScanLines(Split(text, Crlf))
  }

  /** Each line comes from a retained raw line, carries its kept text, and its
      range ends where that raw line ends in the offset count. */
  predicate FromRaw(raws: seq<string>, l: Line) {
    l.number < |raws| && l.raw == raws[l.number]
    && Retained(l.raw) == Some(l.kept)
    && l.end == RawOffset(raws[..l.number]) + |l.raw|
    && l.start + |l.kept| == l.end
  }

  /** Ranges run forwards, and lines are in order and at least a terminator apart. */
  predicate Ordered(lines: seq<Line>) {
    (forall i :: 0 <= i < |lines| ==> lines[i].start <= lines[i].end)
    && (forall i, j :: 0 <= i < j < |lines| ==> lines[i].end + 2 <= lines[j].start && lines[i].number < lines[j].number)
  }

  /** One more raw line: the offset grows by its length plus two. */
  lemma OffsetStep(raws: seq<string>, k: nat)
    requires k < |raws|
    ensures RawOffset(raws[..k + 1]) == RawOffset(raws[..k]) + |raws[k]| + 2
  {
    assert raws[..k + 1][..k] == raws[..k];
  }

  /** One more raw line: the scanner adds at most its line. */
  lemma ScanStep(raws: seq<string>, k: nat)
    requires k < |raws|
    ensures ScanLines(raws[..k + 1]) == ScanLines(raws[..k]) + LineAt(k, raws[k], RawOffset(raws[..k]))
  {
    assert raws[..k + 1][..k] == raws[..k];
  }

  /** The line of a retained raw line. */
  lemma LineAtRetained(number: nat, raw: string, lineStart: nat, kept: string)
    requires Retained(raw) == Some(kept)
    ensures |kept| <= |raw|
    ensures LineAt(number, raw, lineStart) == [Line(number, raw, kept, lineStart + |raw| - |kept|, lineStart + |raw|)]
  {
  }

  /** A skipped raw line adds nothing. */
  lemma SkipStep(raws: seq<string>, k: nat)
    requires k < |raws| && Retained(raws[k]).None?
    ensures ScanLines(raws[..k + 1]) == ScanLines(raws[..k])
  {
    ScanStep(raws, k);
    assert ScanLines(raws[..k]) + [] == ScanLines(raws[..k]);
  }

  /** A retained raw line adds its line, whose range ends where the raw line
      ends and is as long as the kept text. */
  lemma KeepStep(raws: seq<string>, k: nat, l: Line)
    requires k < |raws| && Retained(raws[k]) == Some(l.kept)
    requires l == Line(k, raws[k], l.kept, RawOffset(raws[..k]) + |raws[k]| - |l.kept|, RawOffset(raws[..k]) + |raws[k]|)
    ensures ScanLines(raws[..k + 1]) == ScanLines(raws[..k]) + [l]
  {
    ScanStep(raws, k);
    LineAtRetained(k, raws[k], RawOffset(raws[..k]), l.kept);
    assert LineAt(k, raws[k], RawOffset(raws[..k])) == [l];
  }

  /** What the scanner emits: lines of retained raw lines, each inside the
      offsets of the raw lines it has passed. */
  lemma {:induction false} ScanLinesFromRaw(raws: seq<string>)
    ensures forall l :: l in ScanLines(raws) ==> FromRaw(raws, l) && l.end + 2 <= RawOffset(raws)
    decreases |raws|
  {
    if |raws| > 0 {
      var n := |raws| - 1;
      var before := raws[..n];
      ScanLinesFromRaw(before);
      var prior := ScanLines(before);
      var here := LineAt(n, raws[n], RawOffset(before));
      assert ScanLines(raws) == prior + here;
      forall l | l in prior ensures FromRaw(raws, l) && l.end + 2 <= RawOffset(raws) {
        assert FromRaw(before, l);
        assert raws[..l.number] == before[..l.number];
      }
      forall l | l in here ensures FromRaw(raws, l) && l.end + 2 <= RawOffset(raws) {
        assert raws[..n] == before;
      }
    }
  }

  /** The scanner's lines are in raw-line order, at least a terminator apart. */
  lemma {:induction false} ScanLinesOrdered(raws: seq<string>)
    ensures Ordered(ScanLines(raws))
    decreases |raws|
  {
    if |raws| > 0 {
      var n := |raws| - 1;
      var before := raws[..n];
      ScanLinesOrdered(before);
      ScanLinesFromRaw(before);
      var prior := ScanLines(before);
      var here := LineAt(n, raws[n], RawOffset(before));
      assert ScanLines(raws) == prior + here;
      forall l | l in here ensures l.start <= l.end && forall m :: m in prior ==> m.end + 2 <= l.start && m.number < l.number {
        forall m | m in prior ensures m.end + 2 <= l.start && m.number < l.number {
          assert FromRaw(before, m);
        }
      }
    }
  }

  /** Every retained raw line reaches the validators. */
  lemma {:induction false} ScanLinesComplete(raws: seq<string>, k: nat)
    requires k < |raws| && Retained(raws[k]).Some?
    ensures exists i :: 0 <= i < |ScanLines(raws)| && ScanLines(raws)[i].number == k
    decreases |raws|
  {
    var n := |raws| - 1;
    var before := raws[..n];
    var prior := ScanLines(before);
    assert ScanLines(raws) == prior + LineAt(n, raws[n], RawOffset(before));
    if k == n {
      assert ScanLines(raws)[|prior|].number == k;
    } else {
      ScanLinesComplete(before, k);
      var i :| 0 <= i < |prior| && prior[i].number == k;
      assert ScanLines(raws)[i] == prior[i];
    }
  }

  /** The offset count read from the front: the first raw line, then the rest. */
  lemma {:induction false} RawOffsetFront(raws: seq<string>)
    requires |raws| > 0
    ensures RawOffset(raws) == |raws[0]| + 2 + RawOffset(raws[1..])
    decreases |raws|
  {
    if |raws| > 1 {
      var before := raws[..|raws| - 1];
      RawOffsetFront(before);
      assert before[1..] == raws[1..][..|raws[1..]| - 1];
    } else {
      assert raws[..0] == [] && raws[1..] == [];
    }
  }

  /** Raw line `k` of the joined text starts at the offset of the lines before it. */
  lemma {:induction false} RawLineInText(raws: seq<string>, k: nat)
    requires k < |raws|
    ensures RawOffset(raws[..k]) + |raws[k]| <= |Join(raws, Crlf)|
    ensures Join(raws, Crlf)[RawOffset(raws[..k])..RawOffset(raws[..k]) + |raws[k]|] == raws[k]
    decreases |raws|
  {
    var text := Join(raws, Crlf);
    if |raws| == 1 {
      assert raws[..0] == [];
    } else if k == 0 {
      assert raws[..0] == [];
      assert text == raws[0] + Crlf + Join(raws[1..], Crlf);
      assert text[..|raws[0]|] == raws[0];
    } else {
      var rest := raws[1..];
      RawLineInText(rest, k - 1);
      RawOffsetFront(raws[..k]);
      assert raws[..k][1..] == rest[..k - 1];
      var head := raws[0] + Crlf;
      assert text == head + Join(rest, Crlf);
      var o := RawOffset(rest[..k - 1]);
      assert RawOffset(raws[..k]) == |head| + o;
      assert rest[k - 1] == raws[k];
      assert text[|head| + o..|head| + o + |raws[k]|] == Join(rest, Crlf)[o..o + |raws[k]|];
    }
  }

  /** A line made from raw line `l.number` sits in the joined raw lines where
      its offsets say. */
  lemma FromRawInJoin(raws: seq<string>, l: Line)
    requires FromRaw(raws, l)
    ensures |l.kept| <= |l.raw| <= l.end <= |Join(raws, Crlf)| && l.start == l.end - |l.kept|
    ensures Join(raws, Crlf)[l.end - |l.raw|..l.end] == l.raw
    ensures Join(raws, Crlf)[l.start..l.end] == l.raw[|l.raw| - |l.kept|..]
  {
    assert Retained(l.raw) == Some(l.kept);
    RawLineInText(raws, l.number);
    var text := Join(raws, Crlf);
    assert text[l.end - |l.raw|..l.end][|l.raw| - |l.kept|..] == text[l.start..l.end];
  }

  /** One line of a document sits in the text where its offsets say. */
  lemma LineInText(text: string, l: Line)
    requires l in Scan(text)
    ensures |l.kept| <= |l.raw| <= l.end <= |text| && l.start == l.end - |l.kept|
    ensures text[l.end - |l.raw|..l.end] == l.raw
    ensures text[l.start..l.end] == l.raw[|l.raw| - |l.kept|..]
  {
    JoinSplit(text, Crlf);
    assert FromRaw(Split(text, Crlf), l) by {
      ScanLinesFromRaw(Split(text, Crlf));
    }
    FromRawInJoin(Split(text, Crlf), l);
  }

  /** Offsets point into the original text: every line's raw text sits where
      its range ends, its range lies inside the text, and the range covers the
      last `|kept|` characters of the raw line (the whole kept text when the
      line has no comment). */
  lemma LinesInText(text: string)
    ensures forall l :: l in Scan(text) ==>
      |l.kept| <= |l.raw| <= l.end <= |text| && l.start == l.end - |l.kept|
      && text[l.end - |l.raw|..l.end] == l.raw
      && text[l.start..l.end] == l.raw[|l.raw| - |l.kept|..]
      && (';' !in l.raw ==> text[l.start..l.end] == l.kept)
  {
    forall l | l in Scan(text)
      ensures |l.kept| <= |l.raw| <= l.end <= |text| && l.start == l.end - |l.kept|
      ensures text[l.end - |l.raw|..l.end] == l.raw
      ensures text[l.start..l.end] == l.raw[|l.raw| - |l.kept|..]
      ensures ';' !in l.raw ==> text[l.start..l.end] == l.kept
    {
      LineInText(text, l);
      ScanLinesFromRaw(Split(text, Crlf));
      assert Retained(l.raw) == Some(l.kept);
    }
  }

  /** The offset of raw line `k` is the sum of length plus two over the raw
      lines before it, whatever the scanner did with them; so a line's start
      can be recomputed by the caller without scanning. */
  lemma LineStartIsRawOffset(text: string)
    ensures forall l :: l in Scan(text) ==>
      l.number < |Split(text, Crlf)| && |l.raw| <= l.end
      && l.end - |l.raw| == RawOffset(Split(text, Crlf)[..l.number])
      && l.start == l.end - |l.kept|
  {
    ScanLinesFromRaw(Split(text, Crlf));
  }
}
