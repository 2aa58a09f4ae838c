/**
 * The decoder: raw scanned text to a partial record. The text is cut into
 * lines, and every line is searched for every element code, in table order;
 * a code found on a line assigns the trimmed text that follows it, unless
 * that text is empty. Later assignments overwrite earlier ones.
 */
module AamvaParser {
  import opened JsString
  import opened AamvaTypes
  import opened AamvaDictionary

  datatype Option<T> = None | Some(value: T)

  /** A partially filled record: only the fields that were found. */
  type PartialRecord = map<Field, string>

  /** The lines of the scanned text: carriage returns dropped, then cut at line feeds. */
  function Lines(raw: string): (lines: seq<string>)
    ensures |lines| >= 1
    ensures forall k :: 0 <= k < |lines| ==> '\n' !in lines[k] && '\r' !in lines[k]
  {
    var text := RemoveAll(raw, '\r');
    SplitPiecesExclude(text, "\n", 0);
    SplitPiecesOmit(text, "\n", 0, '\r');
    forall k | 0 <= k < |Split(text, "\n")| ensures '\n' !in Split(text, "\n")[k] {
      IncludesChar(Split(text, "\n")[k], '\n');
    }
    Split(text, "\n")
  }

  /**
   * The value a line yields for one code: the trimmed second piece of the
   * line split at the code, when the line includes the code and that value
   * is not empty.
   */
  function ValueFor(line: string, code: string): (v: Option<string>)
    requires |code| > 0
    ensures v.Some? ==> Includes(line, code) && v.value != [] && IsTrimmed(v.value)
  {
    if Includes(line, code) then
      var value := Trim(Split(line, code)[1]);
      if value != [] then Some(value) else None
    else None
  }

  /** Every code in `entries` is a non-empty string. */
  predicate NonEmptyCodes(entries: seq<(string, Field)>) {
    forall i :: 0 <= i < |entries| ==> entries[i].0 != []
  }

  /** `a` and `b` agree on field `f`: both lack it, or both hold the same value. */
  predicate AgreeAt(a: PartialRecord, b: PartialRecord, f: Field) {
    (f in a <==> f in b) && (f in a ==> a[f] == b[f])
  }

  /** `m` with the outcome `o` for field `f` applied: a value overwrites, no value keeps `m`. */
  function Apply(m: PartialRecord, f: Field, o: Option<string>): PartialRecord {
    match o
    case Some(v) => m[f := v]
    case None => m
  }

  /** The record after `line` has been searched for each code of `entries`, in order. */
  function ScanLine(m: PartialRecord, line: string, entries: seq<(string, Field)>): PartialRecord
    requires NonEmptyCodes(entries)
  {
    if entries == [] then m
    else
      var n := |entries| - 1;
      Apply(ScanLine(m, line, entries[..n]), entries[n].1, ValueFor(line, entries[n].0))
  }

  /** The codes of the element table are non-empty. */
  lemma TableCodesNonEmpty()
    ensures NonEmptyCodes(Table)
  {
    CodePositions();
  }

  /** The record decoded from `lines`, taken one after the other, each searched for the codes of `entries`. */
  function ParseLines(lines: seq<string>, entries: seq<(string, Field)>): PartialRecord
    requires NonEmptyCodes(entries)
  {
    if lines == [] then map[]
    else ScanLine(ParseLines(lines[..|lines| - 1], entries), lines[|lines| - 1], entries)
  }

  /** The record decoded from the scanned text with the element table. */
  function Parse(raw: string): PartialRecord {
    TableCodesNonEmpty();
    ParseLines(Lines(raw), Table)
  }

  /** One line searched against the codes of `entries`, in order, updating `m`. */
  method ScanLineWith(m: PartialRecord, line: string, entries: seq<(string, Field)>)
    returns (result: PartialRecord)
    requires NonEmptyCodes(entries)
    ensures result == ScanLine(m, line, entries)
  {
    result := m;
    for j := 0 to |entries|
      invariant result == ScanLine(m, line, entries[..j])
    {
      var (key, field) := entries[j];
      assert entries[..j + 1][..j] == entries[..j];
      assert ScanLine(m, line, entries[..j + 1]) == Apply(result, field, ValueFor(line, key));
      if Includes(line, key) {
        var value := Trim(Split(line, key)[1]);
        if value != [] {
          result := result[field := value];
        }
      }
    }
    assert entries[..|entries|] == entries;
  }

  /** The lines searched one after the other against the codes of `entries`. */
  method ParseLinesWith(lines: seq<string>, entries: seq<(string, Field)>) returns (result: PartialRecord)
    requires NonEmptyCodes(entries)
    ensures result == ParseLines(lines, entries)
  {
    result := map[];
    for i := 0 to |lines|
      invariant result == ParseLines(lines[..i], entries)
    {
      result := ScanLineWith(result, lines[i], entries);
      assert lines[..i + 1][..i] == lines[..i];
    }
    assert lines[..|lines|] == lines;
  }

  /** The decoder as it runs: the text cut into lines, each line searched for every code of the table. */
  method ParseAamva(raw: string) returns (result: PartialRecord)
    ensures result == Parse(raw)
  {
    var lines := Lines(raw);
    TableCodesNonEmpty();
    result := ParseLinesWith(lines, Table);
  }

  /**
   * The value a line yields for a code is the trimmed text between the end of
   * the first occurrence of the code and its next occurrence (or the end of
   * the line), and nothing when that text is blank.
   */
  lemma ValueForBetween(line: string, code: string)
    requires |code| > 0
    ensures !Includes(line, code) ==> ValueFor(line, code) == None
    ensures Includes(line, code) ==>
              var t := Trim(AfterFirst(line, code));
              ValueFor(line, code) == if t == [] then None else Some(t)
  {
    if Includes(line, code) {
      SplitSecondPiece(line, code);
    }
  }

  /** A character that does not occur on a line does not occur in any value taken from it. */
  lemma ValueForOmits(line: string, code: string, c: char)
    requires |code| > 0 && c !in line
    ensures ValueFor(line, code).Some? ==> c !in ValueFor(line, code).value
  {
    if Includes(line, code) {
      SplitPiecesOmit(line, code, 0, c);
      if c in Trim(Split(line, code)[1]) {
        TrimChars(Split(line, code)[1], c);
      }
    }
  }

  /** No field appears in two entries. */
  predicate DistinctFields(entries: seq<(string, Field)>) {
    forall i, j :: 0 <= i < j < |entries| ==> entries[i].1 != entries[j].1
  }

  /** The fields of the element table are pairwise distinct. */
  lemma TableFieldsDistinct()
    ensures DistinctFields(Table)
  {
    TableDistinct();
    var r := Swapped(Table);
    forall i, j | 0 <= i < j < |Table| ensures Table[i].1 != Table[j].1 {
      assert r[i].0 != r[j].0;
    }
  }

  /** A prefix of entries with non-empty codes and distinct fields keeps both properties and its entries. */
  lemma PrefixEntries(entries: seq<(string, Field)>, n: nat)
    requires NonEmptyCodes(entries) && DistinctFields(entries) && n <= |entries|
    ensures NonEmptyCodes(entries[..n]) && DistinctFields(entries[..n])
    ensures forall i :: 0 <= i < n ==> entries[..n][i] == entries[i]
  {
  }

  /** Applying an outcome for another field keeps agreement on `f`. */
  lemma ApplyElsewhere(a: PartialRecord, b: PartialRecord, f: Field, g: Field, o: Option<string>)
    requires f != g && AgreeAt(a, b, f)
    ensures AgreeAt(Apply(a, g, o), b, f)
  {
  }

  /** Scanning a line against `entries` sets the field of entry `i` exactly as that entry's code dictates. */
  lemma {:induction false} ScanLineEntry(m: PartialRecord, line: string, entries: seq<(string, Field)>, i: nat)
    requires NonEmptyCodes(entries) && DistinctFields(entries) && i < |entries|
    ensures AgreeAt(ScanLine(m, line, entries), Apply(m, entries[i].1, ValueFor(line, entries[i].0)), entries[i].1)
  {
    var n := |entries| - 1;
    var prefix := entries[..n];
    PrefixEntries(entries, n);
    var before := ScanLine(m, line, prefix);
    var o := ValueFor(line, entries[n].0);
    assert ScanLine(m, line, entries) == Apply(before, entries[n].1, o);
    if i < n {
      ScanLineEntry(m, line, prefix, i);
      ApplyElsewhere(before, Apply(m, entries[i].1, ValueFor(line, entries[i].0)), entries[i].1, entries[n].1, o);
    } else {
      ScanLineMissing(m, line, prefix, entries[i].1);
    }
  }

  /** A field named by no entry is left as it was. */
  lemma {:induction false} ScanLineMissing(m: PartialRecord, line: string, entries: seq<(string, Field)>, f: Field)
    requires NonEmptyCodes(entries)
    requires forall i :: 0 <= i < |entries| ==> entries[i].1 != f
    ensures AgreeAt(ScanLine(m, line, entries), m, f)
  {
    if entries != [] {
      ScanLineMissing(m, line, entries[..|entries| - 1], f);
    }
  }

  /** What each line yields for `code`, line by line. */
  function Outcomes(lines: seq<string>, code: string): (os: seq<Option<string>>)
    requires |code| > 0
    ensures |os| == |lines|
  {
    seq(|lines|, k requires 0 <= k < |lines| => ValueFor(lines[k], code))
  }

  /** The index of the last present outcome, or -1 when there is none. */
  function LastSome<T>(os: seq<Option<T>>): (k: int)
    ensures -1 <= k < |os|
    ensures k != -1 ==> os[k].Some?
    ensures forall j :: k < j < |os| ==> os[j].None?
  {
    if os == [] then -1
    else if os[|os| - 1].Some? then |os| - 1
    else LastSome(os[..|os| - 1])
  }

  /** When exactly one outcome is present, it is the last one. */
  lemma LastSomeUnique<T>(os: seq<Option<T>>, p: nat)
    requires p < |os| && os[p].Some?
    requires forall k :: 0 <= k < |os| && k != p ==> os[k].None?
    ensures LastSome(os) == p
  {
  }

  /**
   * Last line wins, for the field of entry `i`: it is decoded exactly when
   * some line yields a value for the entry's code, and then it holds the
   * value of the last such line; a later line that includes the code with
   * nothing after it does not erase it.
   */
  lemma {:induction false} ParseLinesEntry(lines: seq<string>, entries: seq<(string, Field)>, i: nat)
    requires NonEmptyCodes(entries) && DistinctFields(entries) && i < |entries|
    ensures var os := Outcomes(lines, entries[i].0);
            var k := LastSome(os);
            (k == -1 ==> entries[i].1 !in ParseLines(lines, entries))
            && (k != -1 ==> entries[i].1 in ParseLines(lines, entries)
                            && ParseLines(lines, entries)[entries[i].1] == os[k].value)
  {
    if lines != [] {
      var n := |lines| - 1;
      assert Outcomes(lines[..n], entries[i].0) == Outcomes(lines, entries[i].0)[..n];
      ParseLinesEntry(lines[..n], entries, i);
      ScanLineEntry(ParseLines(lines[..n], entries), lines[n], entries, i);
    }
  }

  /** The codes of the element table are three characters long. */
  lemma CodeLength(f: Field)
    ensures |CodeOf(f)| == 3
  {
    CodePositions();
  }

  /** Last line wins, for the decoder: field `f` holds the value of the last line that yields one for its code. */
  lemma ParseField(raw: string, f: Field)
    ensures |CodeOf(f)| == 3
    ensures var os := Outcomes(Lines(raw), CodeOf(f));
            var k := LastSome(os);
            (k == -1 ==> f !in Parse(raw))
            && (k != -1 ==> f in Parse(raw) && Parse(raw)[f] == os[k].value)
  {
    CodeLength(f);
    TableCodesNonEmpty();
    TableFieldsDistinct();
    ParseLinesEntry(Lines(raw), Table, IndexOfField(f));
  }

  /** When the last line yielding a value for field `f` yields `v`, the decoder returns `v` for `f`. */
  lemma ParseFromLastHit(raw: string, f: Field, k: nat, v: string)
    requires |CodeOf(f)| == 3
    requires LastSome(Outcomes(Lines(raw), CodeOf(f))) == k
    requires k < |Lines(raw)| && Outcomes(Lines(raw), CodeOf(f))[k] == Some(v)
    ensures f in Parse(raw) && Parse(raw)[f] == v
  {
    ParseField(raw, f);
  }

  /** A decoded field's code is included in some line of the text. */
  lemma ParsedFieldsFound(raw: string, f: Field)
    requires f in Parse(raw)
    ensures exists k :: 0 <= k < |Lines(raw)| && Includes(Lines(raw)[k], CodeOf(f))
  {
    ParseField(raw, f);
    var k := LastSome(Outcomes(Lines(raw), CodeOf(f)));
    assert Includes(Lines(raw)[k], CodeOf(f));
  }

  /** Text in which no line includes any element code decodes to the empty record. */
  lemma NoCodesNoFields(raw: string)
    requires forall k, i :: 0 <= k < |Lines(raw)| && 0 <= i < |Table| ==> !Includes(Lines(raw)[k], Table[i].0)
    ensures Parse(raw) == map[]
  {
    var lines := Lines(raw);
    forall f: Field ensures f !in Parse(raw) {
      var code := CodeOf(f);
      assert forall k :: 0 <= k < |lines| ==> !Includes(lines[k], code);
      ParseField(raw, f);
    }
  }

  /** A decoded value is never empty, has no surrounding white space, and holds no line break. */
  predicate CleanValue(v: string) {
    v != [] && IsTrimmed(v) && '\n' !in v && '\r' !in v
  }

  /** Every value the decoder produces is clean. */
  lemma ParsedValuesClean(raw: string, f: Field)
    requires f in Parse(raw)
    ensures CleanValue(Parse(raw)[f])
  {
    var lines := Lines(raw);
    ParseField(raw, f);
    var k := LastSome(Outcomes(lines, CodeOf(f)));
    ValueForOmits(lines[k], CodeOf(f), '\n');
    ValueForOmits(lines[k], CodeOf(f), '\r');
  }

  /** Carriage returns are ignored: removing them beforehand does not change the decoded record. */
  lemma CarriageReturnsIgnored(raw: string)
    ensures Parse(RemoveAll(raw, '\r')) == Parse(raw)
  {
    RemoveAllIdempotent(raw, '\r');
  }

  /** A line with no occurrence of `code` yields nothing for it. */
  lemma ValueForAbsent(line: string, code: string)
    requires |code| > 0 && forall t :: !Occurs(line, code, t)
    ensures ValueFor(line, code) == None
  {
    IncludesIff(line, code);
  }

  /**
   * On a line where `code` occurs only at `at`, the value for `code` is the
   * rest of the line after it, when that rest is non-empty and trimmed.
   */
  lemma ValueForSole(line: string, code: string, at: nat, v: string)
    requires |code| > 0 && at + |code| <= |line|
    requires line[at..at + |code|] == code && line[at + |code|..] == v
    requires forall k :: Occurs(line, code, k) ==> k == at
    requires v != [] && IsTrimmed(v)
    ensures ValueFor(line, code) == Some(v)
  {
    assert Occurs(line, code, at);
    IncludesIff(line, code);
    var first := IndexOf(line, code, 0);
    assert first == at;
    var e := at + |code|;
    var next := IndexOf(line, code, e);
    assert next == -1 || Occurs(line, code, next);
    assert next == -1;
    assert AfterFirst(line, code) == v;
    ValueForBetween(line, code);
    TrimFixed(v);
  }
}
