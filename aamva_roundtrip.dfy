/**
 * Encoding followed by decoding. The decoder finds every field the encoder
 * wrote, with the value the encoder wrote, provided each element line holds
 * exactly one code occurrence, its own, and every value is non-empty,
 * trimmed and free of line breaks. The default record meets this.
 */
module AamvaRoundTrip {
  import opened JsString
  import opened AamvaTypes
  import opened AamvaDictionary
  import opened AamvaParser
  import opened AamvaBuilder

  /** No code of the table occurs anywhere on `line`. */
  ghost predicate NoCode(line: string) {
    forall j, k :: 0 <= j < |Table| ==> !Occurs(line, Table[j].0, k)
  }

  /** The only code occurrence on `line` is the code of entry `i`, at position `at`. */
  ghost predicate SoleCode(line: string, i: nat, at: nat) {
    forall j, k :: 0 <= j < |Table| && Occurs(line, Table[j].0, k) ==> j == i && k == at
  }

  /** Every `D` on `line`, except the one at `at`, does not start a code. */
  predicate OtherDsStartNoCode(line: string, at: int) {
    forall k :: 0 <= k && k + 3 <= |line| && k != at && line[k] == 'D' ==> IndexOfCode(line[k..k + 3]) == -1
  }

  /** Where a code of the table occurs, the line has a `D` that starts a code read as that entry's position. */
  lemma CodeAt(line: string, j: nat, k: int)
    requires j < |Table| && Occurs(line, Table[j].0, k)
    ensures 0 <= k && k + 3 <= |line| && line[k] == 'D' && IndexOfCode(line[k..k + 3]) == j
  {
    CodePositions();
  }

  /** A line where no `D` starts a code holds no code. */
  lemma NoCodeBy(line: string)
    requires OtherDsStartNoCode(line, -1)
    ensures NoCode(line)
  {
    forall j, k | 0 <= j < |Table| && Occurs(line, Table[j].0, k) ensures false {
      CodeAt(line, j, k);
    }
  }

  /** A line with the code of entry `i` at `at`, and no other `D` starting a code, holds that code alone. */
  lemma SoleCodeBy(line: string, i: nat, at: nat)
    requires i < |Table| && at + 3 <= |line| && line[at..at + 3] == Table[i].0
    requires OtherDsStartNoCode(line, at)
    ensures SoleCode(line, i, at)
  {
    CodePositions();
    forall j, k | 0 <= j < |Table| && Occurs(line, Table[j].0, k) ensures j == i && k == at {
      CodeAt(line, j, k);
    }
  }

  /** Three characters starting before the end of the code are read from the prefix, the code and the first two value characters. */
  lemma WindowNearCode(p: string, c: string, v: string, k: nat)
    requires |c| == 3 && k < |p| + 3 && k + 3 <= |p| + |c + v|
    ensures k + 3 <= |p + c + Prefix(v, 2)|
    ensures (p + (c + v))[k..k + 3] == (p + c + Prefix(v, 2))[k..k + 3]
  {
    var line := p + (c + v);
    var head := p + c + Prefix(v, 2);
    assert forall t :: 0 <= t < |head| ==> head[t] == line[t];
  }

  /** Three characters starting after the code are three characters of the value. */
  lemma WindowInValue(p: string, c: string, v: string, k: nat)
    requires |c| == 3 && |p| + 3 <= k && k + 3 <= |p| + |c + v|
    ensures (p + (c + v))[k..k + 3] == v[k - |p| - 3..k - |p|]
  {
    var line := p + (c + v);
    assert forall t :: |p| + 3 <= t < |line| ==> line[t] == v[t - |p| - 3];
  }

  /**
   * A line made of a prefix, the code of entry `i` and a value holds that code
   * alone when no `D` near the code, and no `D` inside the value, starts a code.
   */
  lemma SoleCodeByParts(p: string, i: nat, v: string)
    requires i < |Table|
    requires OtherDsStartNoCode(p + Table[i].0 + Prefix(v, 2), |p|)
    requires OtherDsStartNoCode(v, -1)
    ensures SoleCode(p + Element(Table[i].0, v), i, |p|)
  {
    var c := Table[i].0;
    CodePositions();
    var line := p + Element(c, v);
    var head := p + c + Prefix(v, 2);
    var at := |p|;
    assert line[at..at + 3] == c;
    forall k | 0 <= k && k + 3 <= |line| && k != at && line[k] == 'D'
      ensures IndexOfCode(line[k..k + 3]) == -1
    {
      if k < at + 3 {
        WindowNearCode(p, c, v, k);
        assert head[k] == line[k];
      } else {
        WindowInValue(p, c, v, k);
        assert v[k - at - 3] == line[k];
      }
    }
    SoleCodeBy(line, i, at);
  }

  /** Neither header line holds a code. */
  lemma HeaderHasNoCode()
    ensures NoCode("@") && NoCode(AnsiLine)
  {
    NoCodeBy("@");
    NoCodeBy(AnsiLine);
  }

  /**
   * A record the round trip preserves: every emitted value is clean, and
   * every element line holds its own code once and no other code.
   */
  ghost predicate Encodable(d: AamvaData) {
    (forall f: Field :: CleanValue(Emitted(d, f)))
    && (forall i | 0 <= i < |Table| :: SoleCode(DlSegment(d)[i], i, |LinePrefix(i)|))
  }

  /** The encoder's output holds no carriage return when no value does. */
  lemma OutputHasNoCarriageReturn(d: AamvaData)
    requires forall f: Field :: '\r' !in Emitted(d, f)
    ensures '\r' !in BuildAamvaString(d)
  {
    BuildJoinsLines(d);
    OutputLinesOmit(d, '\r');
    JoinOmits(OutputLines(d), "\n", '\r');
  }

  /** The decoder reads back the lines the encoder wrote: neither carriage returns nor extra line breaks. */
  lemma LinesOfOutput(d: AamvaData)
    requires forall f: Field :: CleanValue(Emitted(d, f))
    ensures Lines(BuildAamvaString(d)) == OutputLines(d)
  {
    var raw := BuildAamvaString(d);
    OutputHasNoCarriageReturn(d);
    assert RemoveAll(raw, '\r') == raw;
    SplitOutput(d);
  }

  /** Element line `j` of an encodable record is the table's line, and it holds its own code alone. */
  lemma ElementLineOf(d: AamvaData, j: nat)
    requires Encodable(d) && j < |Table|
    ensures OutputLines(d)[j + 2] == LinePrefix(j) + Element(Table[j].0, Emitted(d, Table[j].1))
    ensures SoleCode(OutputLines(d)[j + 2], j, |LinePrefix(j)|)
  {
    DlSegmentFromTable(d);
    assert OutputLines(d)[j + 2] == DlSegment(d)[j];
  }

  /** Line `i + 2` of the output, the line written for entry `i`, yields that entry's value. */
  lemma OutcomeOfOwnLine(d: AamvaData, i: nat)
    requires Encodable(d) && i < |Table|
    ensures |Table[i].0| == 3
    ensures ValueFor(OutputLines(d)[i + 2], Table[i].0) == Some(Emitted(d, Table[i].1))
  {
    CodePositions();
    ElementLineOf(d, i);
    var line := OutputLines(d)[i + 2];
    var p, code, v := LinePrefix(i), Table[i].0, Emitted(d, Table[i].1);
    var at := |p|;
    assert line == p + (code + v);
    assert line[at..at + 3] == code;
    assert line[at + 3..] == v;
    forall t | Occurs(line, code, t) ensures t == at {
      assert 0 <= i < |Table| && Occurs(line, Table[i].0, t);
    }
    assert CleanValue(Emitted(d, Table[i].1));
    ValueForSole(line, code, at, v);
  }

  /** Element line `j + 2` yields nothing for the code of another entry `i`. */
  lemma OutcomeOfOtherLine(d: AamvaData, i: nat, j: nat)
    requires Encodable(d) && i < |Table| && j < |Table| && i != j
    ensures |Table[i].0| == 3
    ensures ValueFor(OutputLines(d)[j + 2], Table[i].0) == None
  {
    CodePositions();
    ElementLineOf(d, j);
    var line := OutputLines(d)[j + 2];
    forall t ensures !Occurs(line, Table[i].0, t) {
    }
    ValueForAbsent(line, Table[i].0);
  }

  /** The header lines yield nothing for any code. */
  lemma OutcomeOfHeader(d: AamvaData, i: nat, k: nat)
    requires i < |Table| && k < 2
    ensures |Table[i].0| == 3
    ensures ValueFor(OutputLines(d)[k], Table[i].0) == None
  {
    CodePositions();
    HeaderHasNoCode();
    var line := OutputLines(d)[k];
    assert line == "@" || line == AnsiLine;
    forall t ensures !Occurs(line, Table[i].0, t) {
    }
    ValueForAbsent(line, Table[i].0);
  }

  /** What line `k` of the output yields for the code of entry `i`: the value on its own line, nothing elsewhere. */
  lemma OutcomeOfLine(d: AamvaData, i: nat, k: nat)
    requires Encodable(d) && i < |Table| && k < 31
    ensures |Table[i].0| == 3
    ensures ValueFor(OutputLines(d)[k], Table[i].0) == if k == i + 2 then Some(Emitted(d, Table[i].1)) else None
  {
    CodePositions();
    if k < 2 {
      OutcomeOfHeader(d, i, k);
    } else if k == i + 2 {
      OutcomeOfOwnLine(d, i);
    } else {
      OutcomeOfOtherLine(d, i, k - 2);
    }
  }

  /** Among the output lines, the last (and only) one that yields a value for field `f` is its own line. */
  lemma LastOutcome(d: AamvaData, f: Field)
    requires Encodable(d)
    ensures |CodeOf(f)| == 3
    ensures var os := Outcomes(OutputLines(d), CodeOf(f));
            var k := LastSome(os);
            k == IndexOfField(f) + 2 && os[k] == Some(Emitted(d, f))
  {
    var i := IndexOfField(f);
    CodeLength(f);
    var os := Outcomes(OutputLines(d), CodeOf(f));
    assert CodeOf(f) == Table[i].0 && Table[i].1 == f;
    forall k | 0 <= k < 31 ensures os[k] == if k == i + 2 then Some(Emitted(d, f)) else None {
      OutcomeOfLine(d, i, k);
    }
    LastSomeUnique(os, i + 2);
  }

  /** Decoding the output, the only line that yields a value for field `f` is the line written for it. */
  lemma DecodedOutcomes(d: AamvaData, f: Field)
    requires Encodable(d)
    ensures |CodeOf(f)| == 3
    ensures var os := Outcomes(Lines(BuildAamvaString(d)), CodeOf(f));
            LastSome(os) == IndexOfField(f) + 2 && os[IndexOfField(f) + 2] == Some(Emitted(d, f))
  {
    LinesOfOutput(d);
    LastOutcome(d, f);
  }

  /** The round trip for one field: decoding the output gives back the value written for it. */
  lemma RoundTripField(d: AamvaData, f: Field)
    requires Encodable(d)
    ensures f in Parse(BuildAamvaString(d)) && Parse(BuildAamvaString(d))[f] == Emitted(d, f)
  {
    var raw := BuildAamvaString(d);
    DecodedOutcomes(d, f);
    var os := Outcomes(Lines(raw), CodeOf(f));
    var k := IndexOfField(f) + 2;
    assert LastSome(os) == k && k < |os| == |Lines(raw)|;
    ParseFromLastHit(raw, f, k, Emitted(d, f));
  }

  /**
   * The round trip: decoding the encoder's output recovers every field, each
   * with the value the encoder wrote for it (the sex as `1` or `2`, the
   * jurisdiction abbreviated), whenever the record is encodable.
   */
  lemma RoundTrip(d: AamvaData)
    requires Encodable(d)
    ensures forall f: Field :: f in Parse(BuildAamvaString(d)) && Parse(BuildAamvaString(d))[f] == Emitted(d, f)
  {
    forall f: Field ensures f in Parse(BuildAamvaString(d)) && Parse(BuildAamvaString(d))[f] == Emitted(d, f) {
      RoundTripField(d, f);
    }
  }

  /**
   * The parts of an element line checked one by one: the value is clean, no
   * `D` near the code starts another code, and no `D` inside the value does.
   */
  ghost predicate ClearLine(p: string, code: string, v: string) {
    CleanValue(v) && OtherDsStartNoCode(p + code + Prefix(v, 2), |p|) && OtherDsStartNoCode(v, -1)
  }

  /** Element line `i` of the encoding of `d`, checked by its parts. */
  ghost predicate LineClear(d: AamvaData, i: nat)
    requires i < |Table|
  {
    ClearLine(LinePrefix(i), Table[i].0, Emitted(d, Table[i].1))
  }

  /** A record whose element lines all pass the check by parts is encodable. */
  lemma EncodableWhenClear(d: AamvaData)
    requires forall i | 0 <= i < |Table| :: LineClear(d, i)
    ensures Encodable(d)
  {
    DlSegmentFromTable(d);
    forall i | 0 <= i < |Table| ensures SoleCode(DlSegment(d)[i], i, |LinePrefix(i)|) {
      assert LineClear(d, i);
      SoleCodeByParts(LinePrefix(i), i, Emitted(d, Table[i].1));
    }
    forall f: Field ensures CleanValue(Emitted(d, f)) {
      assert LineClear(d, IndexOfField(f));
    }
  }
}
