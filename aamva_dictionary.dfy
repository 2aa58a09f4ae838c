/**
 * The field dictionary: the literal table from three-letter AAMVA element codes
 * to record fields (`AAMVA_MAP`), and the field-to-code map derived from it by
 * swapping every entry (`REV_MAP`).
 */
module AamvaDictionary {
  import opened AamvaTypes

  /**
   * The entries of the code table, in the order the source lists them; this is
   * also `Object.entries(AAMVA_MAP)`, the order in which the decoder tries the codes.
   */
  const Table: seq<(string, Field)> := [
    ("DCA", VehicleClass),
    ("DCB", RestrictionCode),
    ("DCD", EndorsementsCode),
    ("DBA", ExpirationDate),
    ("DCS", LastName),
    ("DDE", FamilyNameTruncation),
    ("DAC", FirstName),
    ("DDF", FirstNameTruncation),
    ("DAD", MiddleName),
    ("DDG", MiddleNameTruncation),
    ("DBD", IssuedDate),
    ("DBB", BirthDate),
    ("DBC", Sex),
    ("DAY", EyeColor),
    ("DAU", Height),
    ("DAG", Street1),
    ("DAI", City),
    ("DAJ", JurisdictionCode),
    ("DAK", PostalCode),
    ("DAQ", LicenseNumber),
    ("DCF", DocumentDiscriminator),
    ("DCG", IssuingCountry),
    ("DAZ", HairColor),
    ("DCK", InventoryControlNumber),
    ("DCL", Race),
    ("DDA", ComplianceType),
    ("DDB", CardRevisionDate),
    ("DAW", WeightInPounds),
    ("DSH", OrganDonor)
  ]

  /** `Object.fromEntries`: a map built from key/value pairs, later pairs overriding earlier ones. */
  function FromEntries<K, V>(entries: seq<(K, V)>): (m: map<K, V>)
    ensures forall i :: 0 <= i < |entries| ==> entries[i].0 in m
  {
    if entries == [] then map[]
    else
      var n := |entries| - 1;
      assert forall i :: 0 <= i < n ==> entries[..n][i] == entries[i];
      FromEntries(entries[..n])[entries[n].0 := entries[n].1]
  }

  /** Every entry swapped: `entries.map(([k, v]) => [v, k])`. */
  function Swapped<K, V>(entries: seq<(K, V)>): (r: seq<(V, K)>)
    ensures |r| == |entries|
    ensures forall i :: 0 <= i < |r| ==> r[i].0 == entries[i].1 && r[i].1 == entries[i].0
  {
    seq(|entries|, i requires 0 <= i < |entries| => (entries[i].1, entries[i].0))
  }

  /** No key appears in two entries. */
  predicate DistinctKeys<K(==), V>(entries: seq<(K, V)>) {
    forall i, j :: 0 <= i < j < |entries| ==> entries[i].0 != entries[j].0
  }

  /** Every key of the map built from the entries comes from some entry. */
  lemma {:induction false} FromEntriesKeys<K, V>(entries: seq<(K, V)>, k: K)
    requires k in FromEntries(entries)
    ensures exists i :: 0 <= i < |entries| && entries[i].0 == k
  {
    var n := |entries| - 1;
    if k != entries[n].0 {
      FromEntriesKeys(entries[..n], k);
      var i :| 0 <= i < n && entries[..n][i].0 == k;
      assert entries[i].0 == k;
    }
  }

  /** With distinct keys, the map built from the entries has one key per entry. */
  lemma {:induction false} FromEntriesSize<K, V>(entries: seq<(K, V)>)
    requires DistinctKeys(entries)
    ensures |FromEntries(entries)| == |entries|
  {
    if entries != [] {
      var n := |entries| - 1;
      var prefix := entries[..n];
      assert DistinctKeys(prefix) by {
        assert forall i :: 0 <= i < n ==> prefix[i] == entries[i];
      }
      FromEntriesSize(prefix);
      assert entries[n].0 !in FromEntries(prefix) by {
        assert forall i :: 0 <= i < n ==> prefix[i].0 != entries[n].0;
        if entries[n].0 in FromEntries(prefix) {
          FromEntriesKeys(prefix, entries[n].0);
        }
      }
    }
  }

  /** With distinct keys, the map built from the entries maps each key to its own value. */
  lemma {:induction false} FromEntriesLookup<K, V>(entries: seq<(K, V)>, i: nat)
    requires DistinctKeys(entries) && i < |entries|
    ensures FromEntries(entries)[entries[i].0] == entries[i].1
  {
    var n := |entries| - 1;
    if i < n {
      var prefix := entries[..n];
      assert forall a :: 0 <= a < n ==> prefix[a] == entries[a];
      FromEntriesLookup(prefix, i);
    }
  }

  /**
   * Swapping the entries of a table with distinct keys and distinct values
   * gives the inverse map: both have one key per entry, and each undoes the other.
   */
  lemma InverseMaps<K, V>(entries: seq<(K, V)>)
    requires DistinctKeys(entries) && DistinctKeys(Swapped(entries))
    ensures |FromEntries(entries)| == |entries| == |FromEntries(Swapped(entries))|
    ensures forall k :: k in FromEntries(entries) ==>
              FromEntries(entries)[k] in FromEntries(Swapped(entries)) &&
              FromEntries(Swapped(entries))[FromEntries(entries)[k]] == k
    ensures forall v :: v in FromEntries(Swapped(entries)) ==>
              FromEntries(Swapped(entries))[v] in FromEntries(entries) &&
              FromEntries(entries)[FromEntries(Swapped(entries))[v]] == v
  {
    var m, r := FromEntries(entries), FromEntries(Swapped(entries));
    FromEntriesSize(entries);
    FromEntriesSize(Swapped(entries));
    forall k | k in m ensures m[k] in r && r[m[k]] == k {
      FromEntriesKeys(entries, k);
      var i :| 0 <= i < |entries| && entries[i].0 == k;
      FromEntriesLookup(entries, i);
      FromEntriesLookup(Swapped(entries), i);
    }
    forall v | v in r ensures r[v] in m && m[r[v]] == v {
      FromEntriesKeys(Swapped(entries), v);
      var i :| 0 <= i < |entries| && Swapped(entries)[i].0 == v;
      FromEntriesLookup(entries, i);
      FromEntriesLookup(Swapped(entries), i);
    }
  }

  /** `AAMVA_MAP`: element code to field. */
  const AamvaMap: map<string, Field> := FromEntries(Table)

  /** `REV_MAP`: field to element code, derived from the same table by swapping its entries. */
  const RevMap: map<Field, string> := FromEntries(Swapped(Table))

  /** The position of each field in the table. */
  function IndexOfField(f: Field): (i: nat)
    ensures i < |Table| && Table[i].1 == f
  {
    match f
    case VehicleClass => 0
    case RestrictionCode => 1
    case EndorsementsCode => 2
    case ExpirationDate => 3
    case LastName => 4
    case FamilyNameTruncation => 5
    case FirstName => 6
    case FirstNameTruncation => 7
    case MiddleName => 8
    case MiddleNameTruncation => 9
    case IssuedDate => 10
    case BirthDate => 11
    case Sex => 12
    case EyeColor => 13
    case Height => 14
    case Street1 => 15
    case City => 16
    case JurisdictionCode => 17
    case PostalCode => 18
    case LicenseNumber => 19
    case DocumentDiscriminator => 20
    case IssuingCountry => 21
    case HairColor => 22
    case InventoryControlNumber => 23
    case Race => 24
    case ComplianceType => 25
    case CardRevisionDate => 26
    case WeightInPounds => 27
    case OrganDonor => 28
  }

  /** The position of each code in the table, read off its second and third letters. */
  function IndexOfCode(c: string): (i: int)
    requires |c| == 3
  {
    match (c[1], c[2])
    case ('C', 'A') => 0
    case ('C', 'B') => 1
    case ('C', 'D') => 2
    case ('B', 'A') => 3
    case ('C', 'S') => 4
    case ('D', 'E') => 5
    case ('A', 'C') => 6
    case ('D', 'F') => 7
    case ('A', 'D') => 8
    case ('D', 'G') => 9
    case ('B', 'D') => 10
    case ('B', 'B') => 11
    case ('B', 'C') => 12
    case ('A', 'Y') => 13
    case ('A', 'U') => 14
    case ('A', 'G') => 15
    case ('A', 'I') => 16
    case ('A', 'J') => 17
    case ('A', 'K') => 18
    case ('A', 'Q') => 19
    case ('C', 'F') => 20
    case ('C', 'G') => 21
    case ('A', 'Z') => 22
    case ('C', 'K') => 23
    case ('C', 'L') => 24
    case ('D', 'A') => 25
    case ('D', 'B') => 26
    case ('A', 'W') => 27
    case ('S', 'H') => 28
    case _ => -1
  }

  /** The fields of entries 0 to 4 sit at their own positions. */
  lemma FieldPositions0To4()
    ensures forall i | 0 <= i < 5 :: IndexOfField(Table[i].1) == i
  {
  }

  /** The fields of entries 5 to 9 sit at their own positions. */
  lemma FieldPositions5To9()
    ensures forall i | 5 <= i < 10 :: IndexOfField(Table[i].1) == i
  {
  }

  /** The fields of entries 10 to 14 sit at their own positions. */
  lemma FieldPositions10To14()
    ensures forall i | 10 <= i < 15 :: IndexOfField(Table[i].1) == i
  {
  }

  /** The fields of entries 15 to 19 sit at their own positions. */
  lemma FieldPositions15To19()
    ensures forall i | 15 <= i < 20 :: IndexOfField(Table[i].1) == i
  {
  }

  /** The fields of entries 20 to 24 sit at their own positions. */
  lemma FieldPositions20To24()
    ensures forall i | 20 <= i < 25 :: IndexOfField(Table[i].1) == i
  {
  }

  /** The fields of entries 25 to 28 sit at their own positions. */
  lemma FieldPositions25To28()
    ensures forall i | 25 <= i < 29 :: IndexOfField(Table[i].1) == i
  {
  }

  /** Every field of the table sits at its own position. */
  lemma FieldPositions()
    ensures forall i | 0 <= i < |Table| :: IndexOfField(Table[i].1) == i
  {
    FieldPositions0To4();
    FieldPositions5To9();
    FieldPositions10To14();
    FieldPositions15To19();
    FieldPositions20To24();
    FieldPositions25To28();
  }

  /** Every code is three letters long, starts with `D`, and sits at its own position. */
  lemma CodePositions()
    ensures |Table| == 29
    ensures forall i | 0 <= i < |Table| ::
              |Table[i].0| == 3 && Table[i].0[0] == 'D' && IndexOfCode(Table[i].0) == i
  {
  }

  /** The table lists 29 distinct codes and 29 distinct fields. */
  lemma TableDistinct()
    ensures |Table| == 29
    ensures DistinctKeys(Table)
    ensures DistinctKeys(Swapped(Table))
  {
    FieldPositions();
    CodePositions();
  }

  /**
   * `REV_MAP` is the exact inverse of `AAMVA_MAP`: 29 codes and 29 fields, every
   * field has a code, and looking a code up and back (or a field up and back)
   * returns it.
   */
  lemma Bijection()
    ensures |AamvaMap| == 29 && |RevMap| == 29
    ensures forall f: Field :: f in RevMap && RevMap[f] in AamvaMap && AamvaMap[RevMap[f]] == f
    ensures forall c :: c in AamvaMap ==> AamvaMap[c] in RevMap && RevMap[AamvaMap[c]] == c
  {
    TableDistinct();
    InverseMaps(Table);
    EveryFieldHasCode();
  }

  /** Every field is a key of `REV_MAP`. */
  lemma EveryFieldHasCode()
    ensures forall f: Field :: f in RevMap
  {
    forall f: Field ensures f in RevMap {
      var i := IndexOfField(f);
      assert Swapped(Table)[i].0 == f;
    }
  }

  /** The element code of field `f`: the code of the table entry that names `f`. */
  function CodeOf(f: Field): string {
    Table[IndexOfField(f)].0
  }

  /** `REV_MAP[f]` is the code of field `f`. */
  lemma RevMapLookup(f: Field)
    ensures f in RevMap && RevMap[f] == CodeOf(f)
  {
    TableDistinct();
    FromEntriesLookup(Swapped(Table), IndexOfField(f));
  }

  /** A field's code is the code the table pairs it with, wherever that entry stands. */
  lemma CodeOfEntry(i: nat)
    requires i < |Table|
    ensures CodeOf(Table[i].1) == Table[i].0
  {
    FieldPositions();
  }

  /** A code read as a table position has upper-case letters in its second and third places. */
  lemma IndexOfCodeLetters(c: string)
    requires |c| == 3 && IndexOfCode(c) != -1
    ensures 'A' <= c[1] <= 'Z' && 'A' <= c[2] <= 'Z'
  {
  }

  /** Every code of the table is three upper-case letters. */
  lemma CodeLetters(i: nat)
    requires i < |Table|
    ensures |Table[i].0| == 3 && forall k | 0 <= k < 3 :: 'A' <= Table[i].0[k] <= 'Z'
  {
    CodePositions();
    IndexOfCodeLetters(Table[i].0);
  }
}
