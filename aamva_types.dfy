/**
 * The driver's-licence record of the transcoder: 29 text fields, one per AAMVA
 * data element the application uses, and the canonical default record the
 * generator starts from.
 */
module AamvaTypes {

  /** The name of one field of the record. */
  datatype Field =
    | VehicleClass | RestrictionCode | EndorsementsCode | ExpirationDate
    | LastName | FamilyNameTruncation | FirstName | FirstNameTruncation
    | MiddleName | MiddleNameTruncation | IssuedDate | BirthDate | Sex
    | EyeColor | Height | Street1 | City | JurisdictionCode | PostalCode
    | LicenseNumber | DocumentDiscriminator | IssuingCountry | HairColor
    | InventoryControlNumber | Race | ComplianceType | CardRevisionDate
    | WeightInPounds | OrganDonor

  /** A full record: every field holds a string, with no numeric or date typing. */
  datatype AamvaData = AamvaData(
    vehicleClass: string,
    restrictionCode: string,
    endorsementsCode: string,
    expirationDate: string,       // MMDDYYYY
    lastName: string,
    familyNameTruncation: string,
    firstName: string,
    firstNameTruncation: string,
    middleName: string,
    middleNameTruncation: string,
    issuedDate: string,           // MMDDYYYY
    birthDate: string,            // MMDDYYYY
    sex: string,                  // 1 = male, 2 = female
    eyeColor: string,
    height: string,
    street_1: string,
    city: string,
    jurisdictionCode: string,     // e.g. TX
    postalCode: string,
    licenseNumber: string,
    documentDiscriminator: string,
    issuingCountry: string,
    hairColor: string,
    inventoryControlNumber: string,
    race: string,
    complianceType: string,
    cardRevisionDate: string,
    weightInPounds: string,
    organDonor: string            // Y or N
  ) {

    /** The value of field `f`. */
    function Get(f: Field): string {
      match f
      case VehicleClass => vehicleClass
      case RestrictionCode => restrictionCode
      case EndorsementsCode => endorsementsCode
      case ExpirationDate => expirationDate
      case LastName => lastName
      case FamilyNameTruncation => familyNameTruncation
      case FirstName => firstName
      case FirstNameTruncation => firstNameTruncation
      case MiddleName => middleName
      case MiddleNameTruncation => middleNameTruncation
      case IssuedDate => issuedDate
      case BirthDate => birthDate
      case Sex => sex
      case EyeColor => eyeColor
      case Height => height
      case Street1 => street_1
      case City => city
      case JurisdictionCode => jurisdictionCode
      case PostalCode => postalCode
      case LicenseNumber => licenseNumber
      case DocumentDiscriminator => documentDiscriminator
      case IssuingCountry => issuingCountry
      case HairColor => hairColor
      case InventoryControlNumber => inventoryControlNumber
      case Race => race
      case ComplianceType => complianceType
      case CardRevisionDate => cardRevisionDate
      case WeightInPounds => weightInPounds
      case OrganDonor => organDonor
    }
  }

  /** The canonical record the generator starts from. */
  const DefaultAamvaData := AamvaData(
    vehicleClass := "C",
    restrictionCode := "NONE",
    endorsementsCode := "NONE",
    expirationDate := "03152029",
    lastName := "POWERS",
    familyNameTruncation := "N",
    firstName := "MICHAEL",
    firstNameTruncation := "N",
    middleName := "ROY",
    middleNameTruncation := "N",
    issuedDate := "10302023",
    birthDate := "03151983",
    sex := "male",
    eyeColor := "BRO",
    height := "082 in",
    street_1 := "2259 ADA LN",
    city := "ROUND ROCK",
    jurisdictionCode := "Texas",
    postalCode := "786640000",
    licenseNumber := "03625157",
    documentDiscriminator := "46105746063515018056",
    issuingCountry := "USA",
    hairColor := "BRO",
    inventoryControlNumber := "10007098064",
    race := "W",
    complianceType := "F",
    cardRevisionDate := "07162021",
    weightInPounds := "167",
    organDonor := "Y"
  )

  /** An eight-digit date string, as the MMDDYYYY fields are documented to hold. */
  predicate IsEightDigits(s: string) {
    |s| == 8 && forall k :: 0 <= k < 8 ==> '0' <= s[k] <= '9'
  }

  /** The three MMDDYYYY fields of the default record hold eight-digit strings. */
  lemma DefaultDatesAreEightDigits()
    ensures IsEightDigits(DefaultAamvaData.expirationDate)
    ensures IsEightDigits(DefaultAamvaData.issuedDate)
    ensures IsEightDigits(DefaultAamvaData.birthDate)
  {
  }
}
