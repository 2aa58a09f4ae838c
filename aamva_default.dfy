/**
 * The canonical default record through the encoder and the decoder: every
 * element line it produces passes the check by parts, so it is encodable and
 * decoding its encoding gives back every field as emitted. The checks on the
 * literal values are split line by line, each in a lemma of its own.
 */
module AamvaDefaultRoundTrip {
  import opened JsString
  import opened AamvaTypes
  import opened AamvaDictionary
  import opened AamvaParser
  import opened AamvaBuilder
  import opened AamvaRoundTrip

  /** A value without a `D` starts no code. */
  lemma NoDNoCode(v: string)
    requires 'D' !in v
    ensures OtherDsStartNoCode(v, -1)
  {
  }

  /** Field `f`'s line passes the check by parts when its prefix, code and emitted value do. */
  lemma LineClearOf(d: AamvaData, f: Field, v: string)
    requires Emitted(d, f) == v
    requires ClearLine(LinePrefix(IndexOfField(f)), CodeOf(f), v)
    ensures LineClear(d, IndexOfField(f))
  {
  }

  /** Line 0 of the default record: field `VehicleClass`, code `DCA`, emitted value `C`. */
  lemma Slot0()
    ensures IndexOfField(VehicleClass) == 0 && CodeOf(VehicleClass) == "DCA"
    ensures Emitted(DefaultAamvaData, VehicleClass) == "C"
  {
  }

  /** The prefix, code and value of line 0 pass the check by parts. */
  lemma Value0()
    ensures ClearLine("DL", "DCA", "C")
  {
    NoDNoCode("C");
  }

  /** Element line 0 of the default record passes the check by parts. */
  lemma Line0()
    ensures LineClear(DefaultAamvaData, 0)
  {
    Slot0();
    Value0();
    LineClearOf(DefaultAamvaData, VehicleClass, "C");
  }

  /** Line 1 of the default record: field `RestrictionCode`, code `DCB`, emitted value `NONE`. */
  lemma Slot1()
    ensures IndexOfField(RestrictionCode) == 1 && CodeOf(RestrictionCode) == "DCB"
    ensures Emitted(DefaultAamvaData, RestrictionCode) == "NONE"
  {
  }

  /** The prefix, code and value of line 1 pass the check by parts. */
  lemma Value1()
    ensures ClearLine("", "DCB", "NONE")
  {
    NoDNoCode("NONE");
  }

  /** Element line 1 of the default record passes the check by parts. */
  lemma Line1()
    ensures LineClear(DefaultAamvaData, 1)
  {
    Slot1();
    Value1();
    LineClearOf(DefaultAamvaData, RestrictionCode, "NONE");
  }

  /** Line 2 of the default record: field `EndorsementsCode`, code `DCD`, emitted value `NONE`. */
  lemma Slot2()
    ensures IndexOfField(EndorsementsCode) == 2 && CodeOf(EndorsementsCode) == "DCD"
    ensures Emitted(DefaultAamvaData, EndorsementsCode) == "NONE"
  {
  }

  /** The prefix, code and value of line 2 pass the check by parts. */
  lemma Value2()
    ensures ClearLine("", "DCD", "NONE")
  {
    NoDNoCode("NONE");
  }

  /** Element line 2 of the default record passes the check by parts. */
  lemma Line2()
    ensures LineClear(DefaultAamvaData, 2)
  {
    Slot2();
    Value2();
    LineClearOf(DefaultAamvaData, EndorsementsCode, "NONE");
  }

  /** Line 3 of the default record: field `ExpirationDate`, code `DBA`, emitted value `03152029`. */
  lemma Slot3()
    ensures IndexOfField(ExpirationDate) == 3 && CodeOf(ExpirationDate) == "DBA"
    ensures Emitted(DefaultAamvaData, ExpirationDate) == "03152029"
  {
  }

  /** The prefix, code and value of line 3 pass the check by parts. */
  lemma Value3()
    ensures ClearLine("", "DBA", "03152029")
  {
    NoDNoCode("03152029");
  }

  /** Element line 3 of the default record passes the check by parts. */
  lemma Line3()
    ensures LineClear(DefaultAamvaData, 3)
  {
    Slot3();
    Value3();
    LineClearOf(DefaultAamvaData, ExpirationDate, "03152029");
  }

  /** Line 4 of the default record: field `LastName`, code `DCS`, emitted value `POWERS`. */
  lemma Slot4()
    ensures IndexOfField(LastName) == 4 && CodeOf(LastName) == "DCS"
    ensures Emitted(DefaultAamvaData, LastName) == "POWERS"
  {
  }

  /** The prefix, code and value of line 4 pass the check by parts. */
  lemma Value4()
    ensures ClearLine("", "DCS", "POWERS")
  {
    NoDNoCode("POWERS");
  }

  /** Element line 4 of the default record passes the check by parts. */
  lemma Line4()
    ensures LineClear(DefaultAamvaData, 4)
  {
    Slot4();
    Value4();
    LineClearOf(DefaultAamvaData, LastName, "POWERS");
  }

  /** Line 5 of the default record: field `FamilyNameTruncation`, code `DDE`, emitted value `N`. */
  lemma Slot5()
    ensures IndexOfField(FamilyNameTruncation) == 5 && CodeOf(FamilyNameTruncation) == "DDE"
    ensures Emitted(DefaultAamvaData, FamilyNameTruncation) == "N"
  {
  }

  /** The prefix, code and value of line 5 pass the check by parts. */
  lemma Value5()
    ensures ClearLine("", "DDE", "N")
  {
    NoDNoCode("N");
  }

  /** Element line 5 of the default record passes the check by parts. */
  lemma Line5()
    ensures LineClear(DefaultAamvaData, 5)
  {
    Slot5();
    Value5();
    LineClearOf(DefaultAamvaData, FamilyNameTruncation, "N");
  }

  /** Line 6 of the default record: field `FirstName`, code `DAC`, emitted value `MICHAEL`. */
  lemma Slot6()
    ensures IndexOfField(FirstName) == 6 && CodeOf(FirstName) == "DAC"
    ensures Emitted(DefaultAamvaData, FirstName) == "MICHAEL"
  {
  }

  /** The prefix, code and value of line 6 pass the check by parts. */
  lemma Value6()
    ensures ClearLine("", "DAC", "MICHAEL")
  {
    NoDNoCode("MICHAEL");
  }

  /** Element line 6 of the default record passes the check by parts. */
  lemma Line6()
    ensures LineClear(DefaultAamvaData, 6)
  {
    Slot6();
    Value6();
    LineClearOf(DefaultAamvaData, FirstName, "MICHAEL");
  }

  /** Line 7 of the default record: field `FirstNameTruncation`, code `DDF`, emitted value `N`. */
  lemma Slot7()
    ensures IndexOfField(FirstNameTruncation) == 7 && CodeOf(FirstNameTruncation) == "DDF"
    ensures Emitted(DefaultAamvaData, FirstNameTruncation) == "N"
  {
  }

  /** The prefix, code and value of line 7 pass the check by parts. */
  lemma Value7()
    ensures ClearLine("", "DDF", "N")
  {
    NoDNoCode("N");
  }

  /** Element line 7 of the default record passes the check by parts. */
  lemma Line7()
    ensures LineClear(DefaultAamvaData, 7)
  {
    Slot7();
    Value7();
    LineClearOf(DefaultAamvaData, FirstNameTruncation, "N");
  }

  /** Line 8 of the default record: field `MiddleName`, code `DAD`, emitted value `ROY`. */
  lemma Slot8()
    ensures IndexOfField(MiddleName) == 8 && CodeOf(MiddleName) == "DAD"
    ensures Emitted(DefaultAamvaData, MiddleName) == "ROY"
  {
  }

  /** The prefix, code and value of line 8 pass the check by parts. */
  lemma Value8()
    ensures ClearLine("", "DAD", "ROY")
  {
    NoDNoCode("ROY");
  }

  /** Element line 8 of the default record passes the check by parts. */
  lemma Line8()
    ensures LineClear(DefaultAamvaData, 8)
  {
    Slot8();
    Value8();
    LineClearOf(DefaultAamvaData, MiddleName, "ROY");
  }

  /** Line 9 of the default record: field `MiddleNameTruncation`, code `DDG`, emitted value `N`. */
  lemma Slot9()
    ensures IndexOfField(MiddleNameTruncation) == 9 && CodeOf(MiddleNameTruncation) == "DDG"
    ensures Emitted(DefaultAamvaData, MiddleNameTruncation) == "N"
  {
  }

  /** The prefix, code and value of line 9 pass the check by parts. */
  lemma Value9()
    ensures ClearLine("", "DDG", "N")
  {
    NoDNoCode("N");
  }

  /** Element line 9 of the default record passes the check by parts. */
  lemma Line9()
    ensures LineClear(DefaultAamvaData, 9)
  {
    Slot9();
    Value9();
    LineClearOf(DefaultAamvaData, MiddleNameTruncation, "N");
  }

  /** Line 10 of the default record: field `IssuedDate`, code `DBD`, emitted value `10302023`. */
  lemma Slot10()
    ensures IndexOfField(IssuedDate) == 10 && CodeOf(IssuedDate) == "DBD"
    ensures Emitted(DefaultAamvaData, IssuedDate) == "10302023"
  {
  }

  /** The prefix, code and value of line 10 pass the check by parts. */
  lemma Value10()
    ensures ClearLine("", "DBD", "10302023")
  {
    NoDNoCode("10302023");
  }

  /** Element line 10 of the default record passes the check by parts. */
  lemma Line10()
    ensures LineClear(DefaultAamvaData, 10)
  {
    Slot10();
    Value10();
    LineClearOf(DefaultAamvaData, IssuedDate, "10302023");
  }

  /** Line 11 of the default record: field `BirthDate`, code `DBB`, emitted value `03151983`. */
  lemma Slot11()
    ensures IndexOfField(BirthDate) == 11 && CodeOf(BirthDate) == "DBB"
    ensures Emitted(DefaultAamvaData, BirthDate) == "03151983"
  {
  }

  /** The prefix, code and value of line 11 pass the check by parts. */
  lemma Value11()
    ensures ClearLine("", "DBB", "03151983")
  {
    NoDNoCode("03151983");
  }

  /** Element line 11 of the default record passes the check by parts. */
  lemma Line11()
    ensures LineClear(DefaultAamvaData, 11)
  {
    Slot11();
    Value11();
    LineClearOf(DefaultAamvaData, BirthDate, "03151983");
  }

  /** Line 12 of the default record: field `Sex`, code `DBC`, emitted value `1`. */
  lemma Slot12()
    ensures IndexOfField(Sex) == 12 && CodeOf(Sex) == "DBC"
    ensures Emitted(DefaultAamvaData, Sex) == "1"
  {
    DefaultConversions();
  }

  /** The prefix, code and value of line 12 pass the check by parts. */
  lemma Value12()
    ensures ClearLine("", "DBC", "1")
  {
    NoDNoCode("1");
  }

  /** Element line 12 of the default record passes the check by parts. */
  lemma Line12()
    ensures LineClear(DefaultAamvaData, 12)
  {
    Slot12();
    Value12();
    LineClearOf(DefaultAamvaData, Sex, "1");
  }

  /** Line 13 of the default record: field `EyeColor`, code `DAY`, emitted value `BRO`. */
  lemma Slot13()
    ensures IndexOfField(EyeColor) == 13 && CodeOf(EyeColor) == "DAY"
    ensures Emitted(DefaultAamvaData, EyeColor) == "BRO"
  {
  }

  /** The prefix, code and value of line 13 pass the check by parts. */
  lemma Value13()
    ensures ClearLine("", "DAY", "BRO")
  {
    NoDNoCode("BRO");
  }

  /** Element line 13 of the default record passes the check by parts. */
  lemma Line13()
    ensures LineClear(DefaultAamvaData, 13)
  {
    Slot13();
    Value13();
    LineClearOf(DefaultAamvaData, EyeColor, "BRO");
  }

  /** Line 14 of the default record: field `Height`, code `DAU`, emitted value `082 in`. */
  lemma Slot14()
    ensures IndexOfField(Height) == 14 && CodeOf(Height) == "DAU"
    ensures Emitted(DefaultAamvaData, Height) == "082 in"
  {
  }

  /** The prefix, code and value of line 14 pass the check by parts. */
  lemma Value14()
    ensures ClearLine("", "DAU", "082 in")
  {
    NoDNoCode("082 in");
  }

  /** Element line 14 of the default record passes the check by parts. */
  lemma Line14()
    ensures LineClear(DefaultAamvaData, 14)
  {
    Slot14();
    Value14();
    LineClearOf(DefaultAamvaData, Height, "082 in");
  }

  /** Line 15 of the default record: field `Street1`, code `DAG`, emitted value `2259 ADA LN`. */
  lemma Slot15()
    ensures IndexOfField(Street1) == 15 && CodeOf(Street1) == "DAG"
    ensures Emitted(DefaultAamvaData, Street1) == "2259 ADA LN"
  {
  }

  /** The prefix, code and value of line 15 pass the check by parts. */
  lemma Value15()
    ensures ClearLine("", "DAG", "2259 ADA LN")
  {
  }

  /** Element line 15 of the default record passes the check by parts. */
  lemma Line15()
    ensures LineClear(DefaultAamvaData, 15)
  {
    Slot15();
    Value15();
    LineClearOf(DefaultAamvaData, Street1, "2259 ADA LN");
  }

  /** Line 16 of the default record: field `City`, code `DAI`, emitted value `ROUND ROCK`. */
  lemma Slot16()
    ensures IndexOfField(City) == 16 && CodeOf(City) == "DAI"
    ensures Emitted(DefaultAamvaData, City) == "ROUND ROCK"
  {
  }

  /** The prefix, code and value of line 16 pass the check by parts. */
  lemma Value16()
    ensures ClearLine("", "DAI", "ROUND ROCK")
  {
  }

  /** Element line 16 of the default record passes the check by parts. */
  lemma Line16()
    ensures LineClear(DefaultAamvaData, 16)
  {
    Slot16();
    Value16();
    LineClearOf(DefaultAamvaData, City, "ROUND ROCK");
  }

  /** Line 17 of the default record: field `JurisdictionCode`, code `DAJ`, emitted value `TE`. */
  lemma Slot17()
    ensures IndexOfField(JurisdictionCode) == 17 && CodeOf(JurisdictionCode) == "DAJ"
    ensures Emitted(DefaultAamvaData, JurisdictionCode) == "TE"
  {
    DefaultConversions();
  }

  /** The prefix, code and value of line 17 pass the check by parts. */
  lemma Value17()
    ensures ClearLine("", "DAJ", "TE")
  {
    NoDNoCode("TE");
  }

  /** Element line 17 of the default record passes the check by parts. */
  lemma Line17()
    ensures LineClear(DefaultAamvaData, 17)
  {
    Slot17();
    Value17();
    LineClearOf(DefaultAamvaData, JurisdictionCode, "TE");
  }

  /** Line 18 of the default record: field `PostalCode`, code `DAK`, emitted value `786640000`. */
  lemma Slot18()
    ensures IndexOfField(PostalCode) == 18 && CodeOf(PostalCode) == "DAK"
    ensures Emitted(DefaultAamvaData, PostalCode) == "786640000"
  {
  }

  /** The prefix, code and value of line 18 pass the check by parts. */
  lemma Value18()
    ensures ClearLine("", "DAK", "786640000")
  {
    NoDNoCode("786640000");
  }

  /** Element line 18 of the default record passes the check by parts. */
  lemma Line18()
    ensures LineClear(DefaultAamvaData, 18)
  {
    Slot18();
    Value18();
    LineClearOf(DefaultAamvaData, PostalCode, "786640000");
  }

  /** Line 19 of the default record: field `LicenseNumber`, code `DAQ`, emitted value `03625157`. */
  lemma Slot19()
    ensures IndexOfField(LicenseNumber) == 19 && CodeOf(LicenseNumber) == "DAQ"
    ensures Emitted(DefaultAamvaData, LicenseNumber) == "03625157"
  {
  }

  /** The prefix, code and value of line 19 pass the check by parts. */
  lemma Value19()
    ensures ClearLine("", "DAQ", "03625157")
  {
    NoDNoCode("03625157");
  }

  /** Element line 19 of the default record passes the check by parts. */
  lemma Line19()
    ensures LineClear(DefaultAamvaData, 19)
  {
    Slot19();
    Value19();
    LineClearOf(DefaultAamvaData, LicenseNumber, "03625157");
  }

  /** Line 20 of the default record: field `DocumentDiscriminator`, code `DCF`, emitted value `46105746063515018056`. */
  lemma Slot20()
    ensures IndexOfField(DocumentDiscriminator) == 20 && CodeOf(DocumentDiscriminator) == "DCF"
    ensures Emitted(DefaultAamvaData, DocumentDiscriminator) == "46105746063515018056"
  {
  }

  /** The prefix, code and value of line 20 pass the check by parts. */
  lemma Value20()
    ensures ClearLine("", "DCF", "46105746063515018056")
  {
    NoDNoCode("46105746063515018056");
  }

  /** Element line 20 of the default record passes the check by parts. */
  lemma Line20()
    ensures LineClear(DefaultAamvaData, 20)
  {
    Slot20();
    Value20();
    LineClearOf(DefaultAamvaData, DocumentDiscriminator, "46105746063515018056");
  }

  /** Line 21 of the default record: field `IssuingCountry`, code `DCG`, emitted value `USA`. */
  lemma Slot21()
    ensures IndexOfField(IssuingCountry) == 21 && CodeOf(IssuingCountry) == "DCG"
    ensures Emitted(DefaultAamvaData, IssuingCountry) == "USA"
  {
  }

  /** The prefix, code and value of line 21 pass the check by parts. */
  lemma Value21()
    ensures ClearLine("", "DCG", "USA")
  {
    NoDNoCode("USA");
  }

  /** Element line 21 of the default record passes the check by parts. */
  lemma Line21()
    ensures LineClear(DefaultAamvaData, 21)
  {
    Slot21();
    Value21();
    LineClearOf(DefaultAamvaData, IssuingCountry, "USA");
  }

  /** Line 22 of the default record: field `HairColor`, code `DAZ`, emitted value `BRO`. */
  lemma Slot22()
    ensures IndexOfField(HairColor) == 22 && CodeOf(HairColor) == "DAZ"
    ensures Emitted(DefaultAamvaData, HairColor) == "BRO"
  {
  }

  /** The prefix, code and value of line 22 pass the check by parts. */
  lemma Value22()
    ensures ClearLine("", "DAZ", "BRO")
  {
    NoDNoCode("BRO");
  }

  /** Element line 22 of the default record passes the check by parts. */
  lemma Line22()
    ensures LineClear(DefaultAamvaData, 22)
  {
    Slot22();
    Value22();
    LineClearOf(DefaultAamvaData, HairColor, "BRO");
  }

  /** Line 23 of the default record: field `InventoryControlNumber`, code `DCK`, emitted value `10007098064`. */
  lemma Slot23()
    ensures IndexOfField(InventoryControlNumber) == 23 && CodeOf(InventoryControlNumber) == "DCK"
    ensures Emitted(DefaultAamvaData, InventoryControlNumber) == "10007098064"
  {
  }

  /** The prefix, code and value of line 23 pass the check by parts. */
  lemma Value23()
    ensures ClearLine("", "DCK", "10007098064")
  {
    NoDNoCode("10007098064");
  }

  /** Element line 23 of the default record passes the check by parts. */
  lemma Line23()
    ensures LineClear(DefaultAamvaData, 23)
  {
    Slot23();
    Value23();
    LineClearOf(DefaultAamvaData, InventoryControlNumber, "10007098064");
  }

  /** Line 24 of the default record: field `Race`, code `DCL`, emitted value `W`. */
  lemma Slot24()
    ensures IndexOfField(Race) == 24 && CodeOf(Race) == "DCL"
    ensures Emitted(DefaultAamvaData, Race) == "W"
  {
  }

  /** The prefix, code and value of line 24 pass the check by parts. */
  lemma Value24()
    ensures ClearLine("", "DCL", "W")
  {
    NoDNoCode("W");
  }

  /** Element line 24 of the default record passes the check by parts. */
  lemma Line24()
    ensures LineClear(DefaultAamvaData, 24)
  {
    Slot24();
    Value24();
    LineClearOf(DefaultAamvaData, Race, "W");
  }

  /** Line 25 of the default record: field `ComplianceType`, code `DDA`, emitted value `F`. */
  lemma Slot25()
    ensures IndexOfField(ComplianceType) == 25 && CodeOf(ComplianceType) == "DDA"
    ensures Emitted(DefaultAamvaData, ComplianceType) == "F"
  {
  }

  /** The prefix, code and value of line 25 pass the check by parts. */
  lemma Value25()
    ensures ClearLine("", "DDA", "F")
  {
    NoDNoCode("F");
  }

  /** Element line 25 of the default record passes the check by parts. */
  lemma Line25()
    ensures LineClear(DefaultAamvaData, 25)
  {
    Slot25();
    Value25();
    LineClearOf(DefaultAamvaData, ComplianceType, "F");
  }

  /** Line 26 of the default record: field `CardRevisionDate`, code `DDB`, emitted value `07162021`. */
  lemma Slot26()
    ensures IndexOfField(CardRevisionDate) == 26 && CodeOf(CardRevisionDate) == "DDB"
    ensures Emitted(DefaultAamvaData, CardRevisionDate) == "07162021"
  {
  }

  /** The prefix, code and value of line 26 pass the check by parts. */
  lemma Value26()
    ensures ClearLine("", "DDB", "07162021")
  {
    NoDNoCode("07162021");
  }

  /** Element line 26 of the default record passes the check by parts. */
  lemma Line26()
    ensures LineClear(DefaultAamvaData, 26)
  {
    Slot26();
    Value26();
    LineClearOf(DefaultAamvaData, CardRevisionDate, "07162021");
  }

  /** Line 27 of the default record: field `WeightInPounds`, code `DAW`, emitted value `167`. */
  lemma Slot27()
    ensures IndexOfField(WeightInPounds) == 27 && CodeOf(WeightInPounds) == "DAW"
    ensures Emitted(DefaultAamvaData, WeightInPounds) == "167"
  {
  }

  /** The prefix, code and value of line 27 pass the check by parts. */
  lemma Value27()
    ensures ClearLine("", "DAW", "167")
  {
    NoDNoCode("167");
  }

  /** Element line 27 of the default record passes the check by parts. */
  lemma Line27()
    ensures LineClear(DefaultAamvaData, 27)
  {
    Slot27();
    Value27();
    LineClearOf(DefaultAamvaData, WeightInPounds, "167");
  }

  /** Line 28 of the default record: field `OrganDonor`, code `DSH`, emitted value `Y`. */
  lemma Slot28()
    ensures IndexOfField(OrganDonor) == 28 && CodeOf(OrganDonor) == "DSH"
    ensures Emitted(DefaultAamvaData, OrganDonor) == "Y"
  {
  }

  /** The prefix, code and value of line 28 pass the check by parts. */
  lemma Value28()
    ensures ClearLine("", "DSH", "Y")
  {
    NoDNoCode("Y");
  }

  /** Element line 28 of the default record passes the check by parts. */
  lemma Line28()
    ensures LineClear(DefaultAamvaData, 28)
  {
    Slot28();
    Value28();
    LineClearOf(DefaultAamvaData, OrganDonor, "Y");
  }

  /** Every element line of the default record passes the check by parts. */
  lemma DefaultLineClear(i: nat)
    requires i < |Table|
    ensures LineClear(DefaultAamvaData, i)
  {
    match i
    case 0 => Line0();
    case 1 => Line1();
    case 2 => Line2();
    case 3 => Line3();
    case 4 => Line4();
    case 5 => Line5();
    case 6 => Line6();
    case 7 => Line7();
    case 8 => Line8();
    case 9 => Line9();
    case 10 => Line10();
    case 11 => Line11();
    case 12 => Line12();
    case 13 => Line13();
    case 14 => Line14();
    case 15 => Line15();
    case 16 => Line16();
    case 17 => Line17();
    case 18 => Line18();
    case 19 => Line19();
    case 20 => Line20();
    case 21 => Line21();
    case 22 => Line22();
    case 23 => Line23();
    case 24 => Line24();
    case 25 => Line25();
    case 26 => Line26();
    case 27 => Line27();
    case _ => Line28();
  }

  /** The default record is encodable. */
  lemma DefaultEncodable()
    ensures Encodable(DefaultAamvaData)
  {
    forall i | 0 <= i < |Table| ensures LineClear(DefaultAamvaData, i) {
      DefaultLineClear(i);
    }
    EncodableWhenClear(DefaultAamvaData);
  }

  /**
   * The two converted defaults: `male` is written as `1`, and `Texas` as
   * `TE`, its first two letters upper-cased.
   */
  lemma DefaultConversions()
    ensures Emitted(DefaultAamvaData, Sex) == "1"
    ensures Emitted(DefaultAamvaData, JurisdictionCode) == "TE"
  {
    var r := JurisdictionAbbrev("Texas");
    assert |r| == 2 && r[0] == 'T' && r[1] == 'E';
  }

  /** The sex and jurisdiction lines of the default record's encoding. */
  lemma DefaultConvertedLines()
    ensures DlSegment(DefaultAamvaData)[12] == "DBC1"
    ensures DlSegment(DefaultAamvaData)[17] == "DAJTE"
  {
    DefaultConversions();
    assert CodeOf(Sex) == "DBC" && CodeOf(JurisdictionCode) == "DAJ";
  }

  /** Every field of the default record is non-empty and has no whitespace at either end. */
  lemma DefaultFieldsTrimmed()
    ensures forall f: Field :: DefaultAamvaData.Get(f) != [] && IsTrimmed(DefaultAamvaData.Get(f))
  {
    DefaultEncodable();
    assert DefaultAamvaData.sex == "male" && DefaultAamvaData.jurisdictionCode == "Texas";
  }

  /**
   * Decoding the encoding of the default record gives back all 29 fields as
   * they were emitted: the sex as `1`, the jurisdiction as `TE`, and every
   * other field as it stands in the default record.
   */
  lemma DefaultRoundTrip()
    ensures forall f: Field :: f in Parse(BuildAamvaString(DefaultAamvaData))
              && Parse(BuildAamvaString(DefaultAamvaData))[f] == Emitted(DefaultAamvaData, f)
  {
    DefaultEncodable();
    RoundTrip(DefaultAamvaData);
  }
}
