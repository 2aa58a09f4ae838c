/**
 * The encoder: a full record to the text of a PDF417 payload. The text is a
 * fixed two-line header followed by 29 element lines, one per field in table
 * order, each the field's code followed by its value; the first element line
 * also carries the `DL` subfile type.
 */
module AamvaBuilder {
  import opened JsString
  import opened AamvaTypes
  import opened AamvaDictionary

  /** The second line of the fixed header: the ANSI file header with issuer number 636015 and the `DL` subfile designator. */
  const AnsiLine: string := "ANSI 636015090002DL00410268ZT03090007"

  /** The fixed header: the compliance indicator `@` on a line of its own, then the ANSI line. */
  const Header: string := "@\n" + AnsiLine

  /** The sex as encoded: `male` becomes `1`, `female` becomes `2`, anything else is kept. */
  function SexCode(sex: string): string {
    if sex == "male" then "1" else if sex == "female" then "2" else sex
  }

  /** The jurisdiction as encoded: its first two characters, upper-cased. */
  function JurisdictionAbbrev(s: string): (r: string)
    ensures |r| == if |s| < 2 then |s| else 2
    ensures forall k :: 0 <= k < |r| ==> r[k] == UpperChar(s[k])
  {
    ToUpper(Prefix(s, 2))
  }

  /** The value written for field `f`: the field itself, except for the two converted ones. */
  function Emitted(d: AamvaData, f: Field): string {
    match f
    case Sex => SexCode(d.sex)
    case JurisdictionCode => JurisdictionAbbrev(d.jurisdictionCode)
    case _ => d.Get(f)
  }

  /** One element line: the code followed by the value. */
  function Element(code: string, value: string): string {
    code + value
  }

  /** Element line `i` of the encoder's list, written out as the encoder lists it. */
  function DlLine(d: AamvaData, i: nat): string
    requires i < 29
  {
    match i
    case 0 => "DL" + Element(CodeOf(VehicleClass), d.vehicleClass)
    case 1 => Element(CodeOf(RestrictionCode), d.restrictionCode)
    case 2 => Element(CodeOf(EndorsementsCode), d.endorsementsCode)
    case 3 => Element(CodeOf(ExpirationDate), d.expirationDate)
    case 4 => Element(CodeOf(LastName), d.lastName)
    case 5 => Element("DDE", d.familyNameTruncation)
    case 6 => Element(CodeOf(FirstName), d.firstName)
    case 7 => Element("DDF", d.firstNameTruncation)
    case 8 => Element(CodeOf(MiddleName), d.middleName)
    case 9 => Element("DDG", d.middleNameTruncation)
    case 10 => Element(CodeOf(IssuedDate), d.issuedDate)
    case 11 => Element(CodeOf(BirthDate), d.birthDate)
    case 12 => Element(CodeOf(Sex), SexCode(d.sex))
    case 13 => Element(CodeOf(EyeColor), d.eyeColor)
    case 14 => Element(CodeOf(Height), d.height)
    case 15 => Element(CodeOf(Street1), d.street_1)
    case 16 => Element(CodeOf(City), d.city)
    case 17 => Element(CodeOf(JurisdictionCode), JurisdictionAbbrev(d.jurisdictionCode))
    case 18 => Element(CodeOf(PostalCode), d.postalCode)
    case 19 => Element(CodeOf(LicenseNumber), d.licenseNumber)
    case 20 => Element(CodeOf(DocumentDiscriminator), d.documentDiscriminator)
    case 21 => Element(CodeOf(IssuingCountry), d.issuingCountry)
    case 22 => Element(CodeOf(HairColor), d.hairColor)
    case 23 => Element(CodeOf(InventoryControlNumber), d.inventoryControlNumber)
    case 24 => Element(CodeOf(Race), d.race)
    case 25 => Element(CodeOf(ComplianceType), d.complianceType)
    case 26 => Element(CodeOf(CardRevisionDate), d.cardRevisionDate)
    case 27 => Element(CodeOf(WeightInPounds), d.weightInPounds)
    case _ => Element(CodeOf(OrganDonor), d.organDonor)
  }

  /** The element lines, in the encoder's order. */
  function DlSegment(d: AamvaData): (lines: seq<string>)
    ensures |lines| == 29
  {
    seq(29, i requires 0 <= i < 29 => DlLine(d, i))
  }

  /** The encoded text: the header, a line feed, and the element lines joined by line feeds. */
  function BuildAamvaString(d: AamvaData): string {
    Header + "\n" + Join(DlSegment(d), "\n")
  }

  /** The text before the code on element line `i`: the subfile type on the first line, nothing after. */
  function LinePrefix(i: nat): string {
    if i == 0 then "DL" else ""
  }

  /** Element line `i` as the table prescribes it: prefix, the code of entry `i`, then that field's value. */
  function TableLine(d: AamvaData, i: nat): string
    requires i < |Table|
  {
    LinePrefix(i) + Element(Table[i].0, Emitted(d, Table[i].1))
  }

  /** Element lines 0 to 2 are the table's lines. */
  lemma DlLines0To2(d: AamvaData)
    ensures forall i | 0 <= i < 3 :: DlLine(d, i) == TableLine(d, i)
  {
  }

  /** Element lines 3 to 5 are the table's lines. */
  lemma DlLines3To5(d: AamvaData)
    ensures forall i | 3 <= i < 6 :: DlLine(d, i) == TableLine(d, i)
  {
  }

  /** Element lines 6 to 8 are the table's lines. */
  lemma DlLines6To8(d: AamvaData)
    ensures forall i | 6 <= i < 9 :: DlLine(d, i) == TableLine(d, i)
  {
  }

  /** Element lines 9 to 11 are the table's lines. */
  lemma DlLines9To11(d: AamvaData)
    ensures forall i | 9 <= i < 12 :: DlLine(d, i) == TableLine(d, i)
  {
  }

  /** Element lines 12 to 14 are the table's lines. */
  lemma DlLines12To14(d: AamvaData)
    ensures forall i | 12 <= i < 15 :: DlLine(d, i) == TableLine(d, i)
  {
  }

  /** Element lines 15 to 17 are the table's lines. */
  lemma DlLines15To17(d: AamvaData)
    ensures forall i | 15 <= i < 18 :: DlLine(d, i) == TableLine(d, i)
  {
  }

  /** Element lines 18 to 20 are the table's lines. */
  lemma DlLines18To20(d: AamvaData)
    ensures forall i | 18 <= i < 21 :: DlLine(d, i) == TableLine(d, i)
  {
  }

  /** Element lines 21 to 23 are the table's lines. */
  lemma DlLines21To23(d: AamvaData)
    ensures forall i | 21 <= i < 24 :: DlLine(d, i) == TableLine(d, i)
  {
  }

  /** Element lines 24 to 26 are the table's lines. */
  lemma DlLines24To26(d: AamvaData)
    ensures forall i | 24 <= i < 27 :: DlLine(d, i) == TableLine(d, i)
  {
  }

  /** Element lines 27 to 28 are the table's lines. */
  lemma DlLines27To28(d: AamvaData)
    ensures forall i | 27 <= i < 29 :: DlLine(d, i) == TableLine(d, i)
  {
  }

  /**
   * Every element line the encoder writes is the table's line for that
   * position: the literal `DDE`, `DDF` and `DDG` agree with the table, and
   * each line carries the value of the field the table pairs with its code.
   */
  lemma DlSegmentFromTable(d: AamvaData)
    ensures |DlSegment(d)| == |Table|
    ensures forall i | 0 <= i < |Table| :: DlSegment(d)[i] == TableLine(d, i)
  {
    CodePositions();
    DlLines0To2(d);
    DlLines3To5(d);
    DlLines6To8(d);
    DlLines9To11(d);
    DlLines12To14(d);
    DlLines15To17(d);
    DlLines18To20(d);
    DlLines21To23(d);
    DlLines24To26(d);
    DlLines27To28(d);
  }

  /** The lines of the encoded text: the two header lines, then the 29 element lines. */
  function OutputLines(d: AamvaData): (lines: seq<string>)
    ensures |lines| == 31
  {
    ["@", AnsiLine] + DlSegment(d)
  }

  /** The encoded text is its lines joined by line feeds. */
  lemma BuildJoinsLines(d: AamvaData)
    ensures BuildAamvaString(d) == Join(OutputLines(d), "\n")
  {
    var seg := DlSegment(d);
    JoinCons(AnsiLine, seg, "\n");
    JoinCons("@", [AnsiLine] + seg, "\n");
    assert OutputLines(d) == ["@"] + ([AnsiLine] + seg);
    assert BuildAamvaString(d) == "@" + "\n" + (AnsiLine + "\n" + Join(seg, "\n"));
  }

  /** A character that is no letter of a code and in no emitted value is absent from element line `i`. */
  lemma TableLineOmits(d: AamvaData, i: nat, c: char)
    requires i < |Table| && !('A' <= c <= 'Z')
    requires c !in Emitted(d, Table[i].1)
    ensures c !in TableLine(d, i)
  {
    CodeLetters(i);
  }

  /** A character absent from every emitted value, and from the header, is absent from every line. */
  lemma OutputLinesOmit(d: AamvaData, c: char)
    requires !('A' <= c <= 'Z') && c !in "@" && c !in AnsiLine
    requires forall f: Field :: c !in Emitted(d, f)
    ensures forall k :: 0 <= k < |OutputLines(d)| ==> c !in OutputLines(d)[k]
  {
    DlSegmentFromTable(d);
    var lines := OutputLines(d);
    forall k | 2 <= k < |lines| ensures c !in lines[k] {
      TableLineOmits(d, k - 2, c);
    }
  }

  /**
   * Splitting the encoded text at line feeds gives back its 31 lines, when no
   * value holds a line feed.
   */
  lemma SplitOutput(d: AamvaData)
    requires forall f: Field :: '\n' !in Emitted(d, f)
    ensures Split(BuildAamvaString(d), "\n") == OutputLines(d)
  {
    BuildJoinsLines(d);
    OutputLinesOmit(d, '\n');
    SplitJoin(BuildAamvaString(d), "\n", 0, OutputLines(d));
  }

  /** Encoding the sex is idempotent: `1`, `2` and unconverted values are kept as they are. */
  lemma SexCodeIdempotent(sex: string)
    ensures SexCode(SexCode(sex)) == SexCode(sex)
    ensures SexCode(sex) == "1" || SexCode(sex) == "2" || SexCode(sex) == sex
  {
  }

  /** Abbreviating the jurisdiction is idempotent and leaves no lower-case letter. */
  lemma JurisdictionAbbrevIdempotent(s: string)
    ensures JurisdictionAbbrev(JurisdictionAbbrev(s)) == JurisdictionAbbrev(s)
    ensures forall k :: 0 <= k < |JurisdictionAbbrev(s)| ==> !('a' <= JurisdictionAbbrev(s)[k] <= 'z')
  {
    var r := JurisdictionAbbrev(s);
    ToUpperIdempotent(Prefix(s, 2));
    assert Prefix(r, 2) == r;
  }
}
