/**
  The "latest TLE" query: the fields it can be filtered and sorted on with their wire
  names, the record its results are read into, the normalisation its constructor applies to
  what the builder collected, and the epoch the record reports.
*/
module LatestTleQuery {
  import opened Wrappers
  import opened QueryPredicates
  import RTV = ResultTypeValidator

  // ---------------------------------------------------------------------------
  // The query fields and their wire names.
  // ---------------------------------------------------------------------------

  /** The fields a latest-TLE query can filter and sort on, in declaration order. */
  datatype LatestTleQueryField =
    | Ordinal | Comment | Originator | CatalogNumber | ObjectName | ObjectType
    | Classification | InternationalDesignator | EpochYmdHms | EpochMicroseconds
    | MeanMotionRevsPerDay | Eccentricity | InclinationDegrees | RightAscOfNodeDegrees
    | ArgOfPerigeeDegrees | MeanAnomalyDegrees | EphemerisType | ElementSetNumber
    | RevNumber | Bstar | MeanMotionDot | MeanMotionDoubleDot | FileNumber
    | TleLine0 | TleLine1 | TleLine2 | ObjectId | ObjectNumber
    | SemiMajorAxisKilometers | PeriodMinutes | ApogeeHeightKilometers | PerigeeHeightKilometers

  /** `getQueryFieldName`: the name the service uses for the field in query URLs. */
  function QueryFieldName(f: LatestTleQueryField): string {
    match f
    case Ordinal => "ORDINAL"
    case Comment => "COMMENT"
    case Originator => "ORIGINATOR"
    case CatalogNumber => "NORAD_CAT_ID"
    case ObjectName => "OBJECT_NAME"
    case ObjectType => "OBJECT_TYPE"
    case Classification => "CLASSIFICATION_TYPE"
    case InternationalDesignator => "INTLDES"
    case EpochYmdHms => "EPOCH"
    case EpochMicroseconds => "EPOCH_MICROSECONDS"
    case MeanMotionRevsPerDay => "MEAN_MOTION"
    case Eccentricity => "ECCENTRICITY"
    case InclinationDegrees => "INCLINATION"
    case RightAscOfNodeDegrees => "RA_OF_ASC_NODE"
    case ArgOfPerigeeDegrees => "ARG_OF_PERICENTER"
    case MeanAnomalyDegrees => "MEAN_ANOMALY"
    case EphemerisType => "EPHEMERIS_TYPE"
    case ElementSetNumber => "ELEMENT_SET_NO"
    case RevNumber => "REV_AT_EPOCH"
    case Bstar => "BSTAR"
    case MeanMotionDot => "MEAN_MOTION_DOT"
    case MeanMotionDoubleDot => "MEAN_MOTION_DDOT"
    case FileNumber => "FILE"
    case TleLine0 => "TLE_LINE0"
    case TleLine1 => "TLE_LINE1"
    case TleLine2 => "TLE_LINE2"
    case ObjectId => "OBJECT_ID"
    case ObjectNumber => "OBJECT_NUMBER"
    case SemiMajorAxisKilometers => "SEMIMAJOR_AXIS"
    case PeriodMinutes => "PERIOD"
    case ApogeeHeightKilometers => "APOGEE"
    case PerigeeHeightKilometers => "PERIGEE"
  }

  /** The constant declared at position `i`. */
  function FieldAt(i: nat): LatestTleQueryField
    requires i < 32
  {
    match i
    case 0 => Ordinal
    case 1 => Comment
    case 2 => Originator
    case 3 => CatalogNumber
    case 4 => ObjectName
    case 5 => ObjectType
    case 6 => Classification
    case 7 => InternationalDesignator
    case 8 => EpochYmdHms
    case 9 => EpochMicroseconds
    case 10 => MeanMotionRevsPerDay
    case 11 => Eccentricity
    case 12 => InclinationDegrees
    case 13 => RightAscOfNodeDegrees
    case 14 => ArgOfPerigeeDegrees
    case 15 => MeanAnomalyDegrees
    case 16 => EphemerisType
    case 17 => ElementSetNumber
    case 18 => RevNumber
    case 19 => Bstar
    case 20 => MeanMotionDot
    case 21 => MeanMotionDoubleDot
    case 22 => FileNumber
    case 23 => TleLine0
    case 24 => TleLine1
    case 25 => TleLine2
    case 26 => ObjectId
    case 27 => ObjectNumber
    case 28 => SemiMajorAxisKilometers
    case 29 => PeriodMinutes
    case 30 => ApogeeHeightKilometers
    case _ => PerigeeHeightKilometers
  }

  /** `LatestTleQueryField.values()`: every constant, in declaration order. */
  function AllFields(): seq<LatestTleQueryField>
  {
    seq(32, i requires 0 <= i < 32 => FieldAt(i))
  }

  /** The constant whose wire name is `name`, if any (the reverse reading of the table). */
  function FieldNamed(name: string): Option<LatestTleQueryField> {
    match name
    case "ORDINAL" => Some(Ordinal)
    case "COMMENT" => Some(Comment)
    case "ORIGINATOR" => Some(Originator)
    case "NORAD_CAT_ID" => Some(CatalogNumber)
    case "OBJECT_NAME" => Some(ObjectName)
    case "OBJECT_TYPE" => Some(ObjectType)
    case "CLASSIFICATION_TYPE" => Some(Classification)
    case "INTLDES" => Some(InternationalDesignator)
    case "EPOCH" => Some(EpochYmdHms)
    case "EPOCH_MICROSECONDS" => Some(EpochMicroseconds)
    case "MEAN_MOTION" => Some(MeanMotionRevsPerDay)
    case "ECCENTRICITY" => Some(Eccentricity)
    case "INCLINATION" => Some(InclinationDegrees)
    case "RA_OF_ASC_NODE" => Some(RightAscOfNodeDegrees)
    case "ARG_OF_PERICENTER" => Some(ArgOfPerigeeDegrees)
    case "MEAN_ANOMALY" => Some(MeanAnomalyDegrees)
    case "EPHEMERIS_TYPE" => Some(EphemerisType)
    case "ELEMENT_SET_NO" => Some(ElementSetNumber)
    case "REV_AT_EPOCH" => Some(RevNumber)
    case "BSTAR" => Some(Bstar)
    case "MEAN_MOTION_DOT" => Some(MeanMotionDot)
    case "MEAN_MOTION_DDOT" => Some(MeanMotionDoubleDot)
    case "FILE" => Some(FileNumber)
    case "TLE_LINE0" => Some(TleLine0)
    case "TLE_LINE1" => Some(TleLine1)
    case "TLE_LINE2" => Some(TleLine2)
    case "OBJECT_ID" => Some(ObjectId)
    case "OBJECT_NUMBER" => Some(ObjectNumber)
    case "SEMIMAJOR_AXIS" => Some(SemiMajorAxisKilometers)
    case "PERIOD" => Some(PeriodMinutes)
    case "APOGEE" => Some(ApogeeHeightKilometers)
    case "PERIGEE" => Some(PerigeeHeightKilometers)
    case _ => None
  }

  lemma FieldNamedInvertsIdentity(f: LatestTleQueryField)
    requires f in {Ordinal, Comment, Originator, CatalogNumber, ObjectName, ObjectType, Classification, InternationalDesignator}
    ensures FieldNamed(QueryFieldName(f)) == Some(f)
  {
  }

  lemma FieldNamedInvertsOrbit(f: LatestTleQueryField)
    requires f in {EpochYmdHms, EpochMicroseconds, MeanMotionRevsPerDay, Eccentricity, InclinationDegrees, RightAscOfNodeDegrees, ArgOfPerigeeDegrees, MeanAnomalyDegrees}
    ensures FieldNamed(QueryFieldName(f)) == Some(f)
  {
  }

  lemma FieldNamedInvertsElements(f: LatestTleQueryField)
    requires f in {EphemerisType, ElementSetNumber, RevNumber, Bstar, MeanMotionDot, MeanMotionDoubleDot, FileNumber, TleLine0}
    ensures FieldNamed(QueryFieldName(f)) == Some(f)
  {
  }

  lemma FieldNamedInvertsLines(f: LatestTleQueryField)
    requires f in {TleLine1, TleLine2, ObjectId, ObjectNumber}
    ensures FieldNamed(QueryFieldName(f)) == Some(f)
  {
  }

  lemma FieldNamedInvertsTail(f: LatestTleQueryField)
    requires f in {SemiMajorAxisKilometers, PeriodMinutes, ApogeeHeightKilometers, PerigeeHeightKilometers}
    ensures FieldNamed(QueryFieldName(f)) == Some(f)
  {
  }

  /** Reading a constant's wire name back gives the constant. */
  lemma FieldNamedInverts(f: LatestTleQueryField)
    ensures FieldNamed(QueryFieldName(f)) == Some(f)
  {
    if f in {Ordinal, Comment, Originator, CatalogNumber, ObjectName, ObjectType, Classification, InternationalDesignator} {
      FieldNamedInvertsIdentity(f);
    } else if f in {EpochYmdHms, EpochMicroseconds, MeanMotionRevsPerDay, Eccentricity, InclinationDegrees, RightAscOfNodeDegrees, ArgOfPerigeeDegrees, MeanAnomalyDegrees} {
      FieldNamedInvertsOrbit(f);
    } else if f in {EphemerisType, ElementSetNumber, RevNumber, Bstar, MeanMotionDot, MeanMotionDoubleDot, FileNumber, TleLine0} {
      FieldNamedInvertsElements(f);
    } else if f in {TleLine1, TleLine2, ObjectId, ObjectNumber} {
      FieldNamedInvertsLines(f);
    } else {
      FieldNamedInvertsTail(f);
    }
  }

  /** No two constants share a wire name. */
  lemma QueryFieldNamesDistinct(f: LatestTleQueryField, g: LatestTleQueryField)
    ensures QueryFieldName(f) == QueryFieldName(g) <==> f == g
  {
    FieldNamedInverts(f);
    FieldNamedInverts(g);
  }

  /** `ordinal()`: a constant's position in declaration order. */
  function Position(f: LatestTleQueryField): (i: nat)
    ensures i < 32 && FieldAt(i) == f
  {
    match f
    case Ordinal => 0
    case Comment => 1
    case Originator => 2
    case CatalogNumber => 3
    case ObjectName => 4
    case ObjectType => 5
    case Classification => 6
    case InternationalDesignator => 7
    case EpochYmdHms => 8
    case EpochMicroseconds => 9
    case MeanMotionRevsPerDay => 10
    case Eccentricity => 11
    case InclinationDegrees => 12
    case RightAscOfNodeDegrees => 13
    case ArgOfPerigeeDegrees => 14
    case MeanAnomalyDegrees => 15
    case EphemerisType => 16
    case ElementSetNumber => 17
    case RevNumber => 18
    case Bstar => 19
    case MeanMotionDot => 20
    case MeanMotionDoubleDot => 21
    case FileNumber => 22
    case TleLine0 => 23
    case TleLine1 => 24
    case TleLine2 => 25
    case ObjectId => 26
    case ObjectNumber => 27
    case SemiMajorAxisKilometers => 28
    case PeriodMinutes => 29
    case ApogeeHeightKilometers => 30
    case PerigeeHeightKilometers => 31
  }

  /** Each position holds the constant whose ordinal it is. */
  lemma PositionOfFieldAt(i: nat)
    requires i < 32
    ensures Position(FieldAt(i)) == i
  {
  }

  /** `values()` lists each constant exactly once. */
  lemma AllFieldsDistinct()
    ensures forall i, j :: 0 <= i < j < |AllFields()| ==> AllFields()[i] != AllFields()[j]
  {
    forall i | 0 <= i < 32 ensures Position(AllFields()[i]) == i {
      PositionOfFieldAt(i);
    }
  }

  /** `values()` lists every constant: each one sits at its position in the declaration order. */
  lemma AllFieldsComplete(f: LatestTleQueryField)
    ensures f in AllFields()
    ensures AllFields()[Position(f)] == f
  {
    var i := Position(f);
    assert AllFields()[i] == FieldAt(i);
  }

  /** The wire names, in declaration order, are pairwise distinct. */
  lemma WireNamesDistinct()
    ensures forall i, j :: 0 <= i < j < |AllFields()| ==> QueryFieldName(AllFields()[i]) != QueryFieldName(AllFields()[j])
  {
    AllFieldsDistinct();
    forall i, j | 0 <= i < j < |AllFields()| ensures QueryFieldName(AllFields()[i]) != QueryFieldName(AllFields()[j]) {
      QueryFieldNamesDistinct(AllFields()[i], AllFields()[j]);
    }
  }

  // ---------------------------------------------------------------------------
  // The result record, `LatestTle`.
  // ---------------------------------------------------------------------------

  /** The declared type of a record field: a class, or `Optional` of a class. */
  datatype DeclaredType = Value(cls: RTV.JavaType) | OptionalOf(element: RTV.JavaType)

  // The class declares one field per query field, in the query fields' order; the three
  // tables below give, for the field declared for each query field, its Java name, its
  // `@JsonProperty` name and its declared type.

  function JavaFieldName(f: LatestTleQueryField): string {
    match f
    case Ordinal => "ordinal"
    case Comment => "comment"
    case Originator => "originator"
    case CatalogNumber => "catalogNumber"
    case ObjectName => "objectName"
    case ObjectType => "objectType"
    case Classification => "classification"
    case InternationalDesignator => "internationalDesignator"
    case EpochYmdHms => "epochYmdHms"
    case EpochMicroseconds => "epochMicroseconds"
    case MeanMotionRevsPerDay => "meanMotionRevsPerDay"
    case Eccentricity => "eccentricity"
    case InclinationDegrees => "inclinationDegrees"
    case RightAscOfNodeDegrees => "rightAscOfNodeDegrees"
    case ArgOfPerigeeDegrees => "argOfPerigeeDegrees"
    case MeanAnomalyDegrees => "meanAnomalyDegrees"
    case EphemerisType => "ephemerisType"
    case ElementSetNumber => "elementSetNumber"
    case RevNumber => "revNumber"
    case Bstar => "bstar"
    case MeanMotionDot => "meanMotionDot"
    case MeanMotionDoubleDot => "meanMotionDoubleDot"
    case FileNumber => "fileNumber"
    case TleLine0 => "tleLine0"
    case TleLine1 => "tleLine1"
    case TleLine2 => "tleLine2"
    case ObjectId => "objectId"
    case ObjectNumber => "objectNumber"
    case SemiMajorAxisKilometers => "semiMajorAxisKilometers"
    case PeriodMinutes => "periodMinutes"
    case ApogeeHeightKilometers => "apogeeHeightKilometers"
    case PerigeeHeightKilometers => "perigeeHeightKilometers"
  }

  function JsonPropertyName(f: LatestTleQueryField): string {
    match f
    case Ordinal => "ORDINAL"
    case Comment => "COMMENT"
    case Originator => "ORIGINATOR"
    case CatalogNumber => "NORAD_CAT_ID"
    case ObjectName => "OBJECT_NAME"
    case ObjectType => "OBJECT_TYPE"
    case Classification => "CLASSIFICATION_TYPE"
    case InternationalDesignator => "INTLDES"
    case EpochYmdHms => "EPOCH"
    case EpochMicroseconds => "EPOCH_MICROSECONDS"
    case MeanMotionRevsPerDay => "MEAN_MOTION"
    case Eccentricity => "ECCENTRICITY"
    case InclinationDegrees => "INCLINATION"
    case RightAscOfNodeDegrees => "RA_OF_ASC_NODE"
    case ArgOfPerigeeDegrees => "ARG_OF_PERICENTER"
    case MeanAnomalyDegrees => "MEAN_ANOMALY"
    case EphemerisType => "EPHEMERIS_TYPE"
    case ElementSetNumber => "ELEMENT_SET_NO"
    case RevNumber => "REV_AT_EPOCH"
    case Bstar => "BSTAR"
    case MeanMotionDot => "MEAN_MOTION_DOT"
    case MeanMotionDoubleDot => "MEAN_MOTION_DDOT"
    case FileNumber => "FILE"
    case TleLine0 => "TLE_LINE0"
    case TleLine1 => "TLE_LINE1"
    case TleLine2 => "TLE_LINE2"
    case ObjectId => "OBJECT_ID"
    case ObjectNumber => "OBJECT_NUMBER"
    case SemiMajorAxisKilometers => "SEMIMAJOR_AXIS"
    case PeriodMinutes => "PERIOD"
    case ApogeeHeightKilometers => "APOGEE"
    case PerigeeHeightKilometers => "PERIGEE"
  }

  function FieldType(f: LatestTleQueryField): DeclaredType {
    match f
    case Ordinal => Value(RTV.IntegerType)
    case Comment => Value(RTV.StringType)
    case Originator => Value(RTV.StringType)
    case CatalogNumber => Value(RTV.IntegerType)
    case ObjectName => Value(RTV.StringType)
    case ObjectType => OptionalOf(RTV.StringType)
    case Classification => Value(RTV.StringType)
    case InternationalDesignator => OptionalOf(RTV.StringType)
    case EpochYmdHms => Value(RTV.InstantType)
    case EpochMicroseconds => Value(RTV.IntegerType)
    case MeanMotionRevsPerDay => Value(RTV.DoubleType)
    case Eccentricity => Value(RTV.DoubleType)
    case InclinationDegrees => Value(RTV.DoubleType)
    case RightAscOfNodeDegrees => Value(RTV.DoubleType)
    case ArgOfPerigeeDegrees => Value(RTV.DoubleType)
    case MeanAnomalyDegrees => Value(RTV.DoubleType)
    case EphemerisType => Value(RTV.IntegerType)
    case ElementSetNumber => Value(RTV.IntegerType)
    case RevNumber => Value(RTV.FloatType)
    case Bstar => Value(RTV.DoubleType)
    case MeanMotionDot => Value(RTV.DoubleType)
    case MeanMotionDoubleDot => Value(RTV.DoubleType)
    case FileNumber => Value(RTV.IntegerType)
    case TleLine0 => Value(RTV.StringType)
    case TleLine1 => Value(RTV.StringType)
    case TleLine2 => Value(RTV.StringType)
    case ObjectId => OptionalOf(RTV.StringType)
    case ObjectNumber => OptionalOf(RTV.IntegerType)
    case SemiMajorAxisKilometers => Value(RTV.DoubleType)
    case PeriodMinutes => OptionalOf(RTV.DoubleType)
    case ApogeeHeightKilometers => Value(RTV.DoubleType)
    case PerigeeHeightKilometers => Value(RTV.DoubleType)
  }

  /**
    The descriptor of the field declared for query field `f`. No field is static or has a
    custom deserializer, and every field, the `Optional` ones included, has no initialiser.
  */
  function DeclaredField(f: LatestTleQueryField): RTV.FieldDesc {
    match FieldType(f)
    case Value(cls) => RTV.FieldDesc(JavaFieldName(f), Some(JsonPropertyName(f)), false, false, cls, false, false)
    case OptionalOf(element) => RTV.FieldDesc(JavaFieldName(f), Some(JsonPropertyName(f)), false, true, element, false, false)
  }

  /** The fields of `LatestTle` in declaration order, as the class declares them. */
  function LatestTleFieldsAsWritten(): seq<RTV.FieldDesc>
  {
    seq(|AllFields()|, i requires 0 <= i < |AllFields()| => DeclaredField(AllFields()[i]))
  }

  /** The record with every `Optional` field initialised to `Optional.empty()`. */
  function WithEmptyDefaults(fs: seq<RTV.FieldDesc>): seq<RTV.FieldDesc>
  {
    seq(|fs|, i requires 0 <= i < |fs| =>
      fs[i].(initialisedByDefault := fs[i].initialisedByDefault || fs[i].isOptional))
  }

  /**
    The record as its validation test expects it: the declared fields, each `Optional` field
    initialised to `Optional.empty()`.
  */
  function LatestTleFields(): seq<RTV.FieldDesc> {
    WithEmptyDefaults(LatestTleFieldsAsWritten())
  }

  /** Each record field carries, as its JSON name, the wire name of its query field. */
  lemma RecordMatchesQueryFields(f: LatestTleQueryField)
    ensures RTV.Declared(DeclaredField(f))
    ensures RTV.JsonName(DeclaredField(f)) == QueryFieldName(f)
  {
    PropertyNameIsWireName(f);
    assert DeclaredField(f).jsonProperty == Some(JsonPropertyName(f));
  }

  /** The `@JsonProperty` of each record field is the wire name of its query field, never empty. */
  lemma PropertyNameIsWireName(f: LatestTleQueryField)
    ensures JsonPropertyName(f) == QueryFieldName(f) && |QueryFieldName(f)| > 0
  {
  }

  /** The `Optional` fields of the record are exactly those of these five query fields. */
  lemma FiveOptionalFields(f: LatestTleQueryField)
    ensures DeclaredField(f).isOptional <==>
      f in {ObjectType, InternationalDesignator, ObjectId, ObjectNumber, PeriodMinutes}
  {
  }

  /** Every record field has a class the type table knows, and none a custom deserializer. */
  lemma DeclaredClassesSupported(f: LatestTleQueryField)
    ensures !DeclaredField(f).valueType.OtherType? && !DeclaredField(f).customDeserializer
    ensures !DeclaredField(f).isStatic && !DeclaredField(f).initialisedByDefault
  {
  }

  /** What the validator needs of every declared field, position by position. */
  lemma AsWrittenShape()
    ensures forall i :: 0 <= i < |LatestTleFieldsAsWritten()| ==>
      var fd := LatestTleFieldsAsWritten()[i];
      !fd.isStatic && !fd.customDeserializer && !fd.valueType.OtherType? && !fd.initialisedByDefault
  {
    var fs := LatestTleFieldsAsWritten();
    forall i | 0 <= i < |fs|
      ensures !fs[i].isStatic && !fs[i].customDeserializer && !fs[i].valueType.OtherType? && !fs[i].initialisedByDefault
    {
      DeclaredClassesSupported(AllFields()[i]);
    }
  }

  /** `objectType`, the sixth field, is the first `Optional` one. */
  lemma ObjectTypeFirstOptional()
    ensures LatestTleFieldsAsWritten()[5].isOptional && LatestTleFieldsAsWritten()[5].name == "objectType"
    ensures forall j :: 0 <= j < 5 ==> !LatestTleFieldsAsWritten()[j].isOptional
  {
    var fs := LatestTleFieldsAsWritten();
    assert fs[0] == DeclaredField(Ordinal);
    assert fs[1] == DeclaredField(Comment);
    assert fs[2] == DeclaredField(Originator);
    assert fs[3] == DeclaredField(CatalogNumber);
    assert fs[4] == DeclaredField(ObjectName);
    assert fs[5] == DeclaredField(ObjectType);
  }

  /** The record's fields, as declared, are well named: explicit, pairwise distinct JSON names. */
  lemma AsWrittenWellNamed()
    ensures RTV.WellNamed(LatestTleFieldsAsWritten())
  {
    var fs := LatestTleFieldsAsWritten();
    forall i | 0 <= i < |fs| ensures RTV.Declared(fs[i]) && RTV.JsonName(fs[i]) == QueryFieldName(AllFields()[i]) {
      RecordMatchesQueryFields(AllFields()[i]);
    }
    WireNamesDistinct();
  }

  /**
    As declared, the record fails validation against every schema whatsoever: its
    `Optional` fields are null after the no-argument constructor.
  */
  lemma AsWrittenFailsEverySchema(schema: seq<RTV.SchemaRow>)
    ensures RTV.Check(LatestTleFieldsAsWritten(), schema).Fail?
  {
    AsWrittenShape();
    ObjectTypeFirstOptional();
    RTV.UninitialisedOptionalFails(LatestTleFieldsAsWritten(), schema, 5);
  }

  /**
    Against the schema the record itself describes, the only violation is the last check's:
    `objectType`, the first `Optional` field, has no default.
  */
  lemma AsWrittenReportsObjectType()
    ensures var fs := LatestTleFieldsAsWritten();
            RTV.Check(fs, RTV.SchemaOf(RTV.InstanceFields(fs))) == Fail(RTV.OptionalNotInitialised("objectType"))
  {
    var fs := LatestTleFieldsAsWritten();
    AsWrittenShape();
    RTV.NoStaticFields(fs);
    AsWrittenWellNamed();
    var schema := RTV.SchemaOf(fs);
    RTV.SchemaOfRowsConform(fs);
    forall k | 0 <= k < |schema| ensures RTV.HasConformer(schema[k], fs) {
      assert RTV.RowConforms(schema[k], fs[k]);
    }
    RTV.DefaultsDecideOnceRowsConform(fs, schema);
    ObjectTypeFirstOptional();
    RTV.FirstUninitialisedReported(fs, 5);
  }

  /** Defaulting the `Optional` fields changes nothing else the validator looks at. */
  lemma DefaultsKeepShape(fs: seq<RTV.FieldDesc>)
    ensures RTV.OptionalsInitialised(WithEmptyDefaults(fs))
    ensures RTV.WellNamed(fs) ==> RTV.WellNamed(WithEmptyDefaults(fs))
    ensures |WithEmptyDefaults(fs)| == |fs|
    ensures forall i :: 0 <= i < |fs| ==>
      var d := WithEmptyDefaults(fs)[i];
      d.name == fs[i].name && d.jsonProperty == fs[i].jsonProperty && d.isOptional == fs[i].isOptional &&
      d.isStatic == fs[i].isStatic && d.customDeserializer == fs[i].customDeserializer && d.valueType == fs[i].valueType &&
      (d.initialisedByDefault <==> fs[i].initialisedByDefault || fs[i].isOptional)
  {
    var ds := WithEmptyDefaults(fs);
    assert forall i :: 0 <= i < |fs| ==> RTV.JsonName(ds[i]) == RTV.JsonName(fs[i]) && ds[i].jsonProperty == fs[i].jsonProperty;
  }

  /** Any well-named record of supported classes passes once its `Optional` fields are defaulted. */
  lemma DefaultedFieldsValidate(declared: seq<RTV.FieldDesc>)
    requires RTV.WellNamed(declared)
    requires forall i :: 0 <= i < |declared| ==>
      !declared[i].isStatic && !declared[i].customDeserializer && !declared[i].valueType.OtherType?
    ensures var fs := WithEmptyDefaults(declared);
            RTV.Check(fs, RTV.SchemaOf(RTV.InstanceFields(fs))) == Pass
  {
    var fs := WithEmptyDefaults(declared);
    DefaultsKeepShape(declared);
    RTV.NoStaticFields(fs);
    RTV.ValidatesAgainstOwnSchema(fs);
  }

  /**
    With its `Optional` fields defaulted, the record passes validation against the schema it
    describes, as the record's validation test expects.
  */
  lemma DefaultedRecordValidates()
    ensures var fs := LatestTleFields();
            RTV.Check(fs, RTV.SchemaOf(RTV.InstanceFields(fs))) == Pass
    ensures |LatestTleFields()| == |LatestTleFieldsAsWritten()|
    ensures forall i :: 0 <= i < |LatestTleFields()| ==>
      LatestTleFields()[i].isOptional == LatestTleFieldsAsWritten()[i].isOptional &&
      LatestTleFields()[i].name == LatestTleFieldsAsWritten()[i].name
  {
    DefaultsKeepShape(LatestTleFieldsAsWritten());
    AsWrittenShape();
    AsWrittenWellNamed();
    DefaultedFieldsValidate(LatestTleFieldsAsWritten());
  }

  // ---------------------------------------------------------------------------
  // Construction.
  // ---------------------------------------------------------------------------

  /** The account a query runs under; the credential provider reduced to what it supplies. */
  datatype Credentials = Credentials(userName: string, password: string)

  /** A row limit, carried through unchanged (its encoding is not part of this model). */
  datatype Limit = Limit(count: int, offset: Option<int>)

  datatype SortOrder = Ascending | Descending

  /** A sort key, carried through unchanged (its encoding is not part of this model). */
  datatype Sort = Sort(field: LatestTleQueryField, order: SortOrder)

  /** The one outcome of a rejected construction, whatever exception the builder throws. */
  datatype Rejection = Rejected

  /** What the constructor hands to the generic query: the endpoint and the normalised arguments. */
  datatype Query = Query(
    credentials: Credentials,
    endpoint: string,
    predicates: seq<Predicate<LatestTleQueryField>>,
    limit: Option<Limit>,
    sorts: seq<Sort>,
    favorites: set<Option<string>>)

  /** The endpoint every latest-TLE query targets. */
  const Endpoint: string := "tle_latest"

  /**
    The constructor: `None` stands for a Java `null`. Credentials and the three collections
    are required; a null limit means no limit. The favorites set is passed on as it is:
    nothing in the constructor looks inside it, so a null name in it is not refused.
  */
  function NewLatestTleQuery(
    credentials: Option<Credentials>,
    predicates: Option<seq<Predicate<LatestTleQueryField>>>,
    limit: Option<Limit>,
    sorts: Option<seq<Sort>>,
    favorites: Option<set<Option<string>>>): (r: Result<Query, Rejection>)
    ensures r.Success? <==> credentials.Some? && predicates.Some? && sorts.Some? && favorites.Some?
    ensures r.Success? ==>
      r.value.endpoint == Endpoint &&
      r.value.credentials == credentials.value &&
      r.value.predicates == predicates.value &&
      r.value.limit == limit &&
      r.value.sorts == sorts.value &&
      r.value.favorites == favorites.value
  {
    if credentials.None? || predicates.None? || sorts.None? || favorites.None? then
      Failure(Rejected)
    else
      Success(Query(credentials.value, Endpoint, predicates.value, limit, sorts.value, favorites.value))
  }

  // ---------------------------------------------------------------------------
  // The builder.
  // ---------------------------------------------------------------------------

  /** One call on the query's builder; `None` stands for a `null` argument. */
  datatype BuilderCall =
    | SetCredentials(credentials: Option<Credentials>)
    | AddPredicate(pred: Predicate<LatestTleQueryField>)
    | AddPredicates(predicates: Option<seq<Predicate<LatestTleQueryField>>>)
    | SetLimit(limit: Option<Limit>)
    | AddSort(sort: Sort)
    | AddSorts(sorts: Option<seq<Sort>>)
    | AddFavorite(favorite: Option<string>)
    | AddFavorites(favorites: Option<seq<Option<string>>>)

  /** What the builder has collected so far. */
  datatype Builder = Builder(
    credentials: Option<Credentials>,
    predicates: seq<Predicate<LatestTleQueryField>>,
    limit: Option<Limit>,
    sorts: seq<Sort>,
    favorites: seq<Option<string>>)

  const EmptyBuilder: Builder := Builder(None, [], None, [], [])

  /** One call: a null collection or a null single favorite is rejected on the spot; anything else is recorded. */
  function Apply(b: Builder, call: BuilderCall): Result<Builder, Rejection> {
    match call
    case SetCredentials(c) => Success(b.(credentials := c))
    case AddPredicate(p) => Success(b.(predicates := b.predicates + [p]))
    case AddPredicates(ps) => if ps.None? then Failure(Rejected) else Success(b.(predicates := b.predicates + ps.value))
    case SetLimit(l) => Success(b.(limit := l))
    case AddSort(x) => Success(b.(sorts := b.sorts + [x]))
    case AddSorts(xs) => if xs.None? then Failure(Rejected) else Success(b.(sorts := b.sorts + xs.value))
    case AddFavorite(n) => if n.None? then Failure(Rejected) else Success(b.(favorites := b.favorites + [n]))
    case AddFavorites(ns) => if ns.None? then Failure(Rejected) else Success(b.(favorites := b.favorites + ns.value))
  }

  /** A fresh builder after the given calls, in order; the first rejected call stops it. */
  function Run(calls: seq<BuilderCall>): Result<Builder, Rejection>
    decreases |calls|
  {
    if calls == [] then Success(EmptyBuilder)
    else match Run(calls[..|calls| - 1])
      case Failure(e) => Failure(e)
      case Success(b) => Apply(b, calls[|calls| - 1])
  }

  /** `builder()`, then the calls, then `build()`. */
  function Build(calls: seq<BuilderCall>): Result<Query, Rejection> {
    match Run(calls)
    case Failure(e) => Failure(e)
    case Success(b) =>
      NewLatestTleQuery(b.credentials, Some(b.predicates), b.limit, Some(b.sorts), Some(set n | n in b.favorites))
  }

  // What the calls give, read from the front of the call list.

  /** A call the builder refuses: a null collection, or a null single favorite. */
  predicate RejectedCall(call: BuilderCall) {
    (call.AddFavorite? && call.favorite.None?) ||
    (call.AddPredicates? && call.predicates.None?) ||
    (call.AddSorts? && call.sorts.None?) ||
    (call.AddFavorites? && call.favorites.None?)
  }

  function PredicatesOf(call: BuilderCall): seq<Predicate<LatestTleQueryField>> {
    match call
    case AddPredicate(p) => [p]
    case AddPredicates(ps) => if ps.Some? then ps.value else []
    case _ => []
  }

  function SortsOf(call: BuilderCall): seq<Sort> {
    match call
    case AddSort(x) => [x]
    case AddSorts(xs) => if xs.Some? then xs.value else []
    case _ => []
  }

  function FavoritesOf(call: BuilderCall): seq<Option<string>> {
    match call
    case AddFavorite(n) => [n]
    case AddFavorites(ns) => if ns.Some? then ns.value else []
    case _ => []
  }

  /** Every predicate the calls pass, in call order. */
  function PredicatesGiven(calls: seq<BuilderCall>): seq<Predicate<LatestTleQueryField>>
    decreases |calls|
  {
    if calls == [] then [] else PredicatesOf(calls[0]) + PredicatesGiven(calls[1..])
  }

  /** Every sort the calls pass, in call order. */
  function SortsGiven(calls: seq<BuilderCall>): seq<Sort>
    decreases |calls|
  {
    if calls == [] then [] else SortsOf(calls[0]) + SortsGiven(calls[1..])
  }

  /** Every favorite name the calls pass, in call order. */
  function FavoritesGiven(calls: seq<BuilderCall>): seq<Option<string>>
    decreases |calls|
  {
    if calls == [] then [] else FavoritesOf(calls[0]) + FavoritesGiven(calls[1..])
  }

  /** The argument of the last `credentials` call, or `None` (null) when there is none. */
  function CredentialsGiven(calls: seq<BuilderCall>): Option<Credentials>
    decreases |calls|
  {
    if calls == [] then None
    else if exists i :: 1 <= i < |calls| && calls[i].SetCredentials? then CredentialsGiven(calls[1..])
    else if calls[0].SetCredentials? then calls[0].credentials
    else None
  }

  /** The argument of the last `limit` call, or `None` (no limit) when there is none. */
  function LimitGiven(calls: seq<BuilderCall>): Option<Limit>
    decreases |calls|
  {
    if calls == [] then None
    else if exists i :: 1 <= i < |calls| && calls[i].SetLimit? then LimitGiven(calls[1..])
    else if calls[0].SetLimit? then calls[0].limit
    else None
  }

  lemma {:induction false} PredicatesGivenSnoc(calls: seq<BuilderCall>, c: BuilderCall)
    ensures PredicatesGiven(calls + [c]) == PredicatesGiven(calls) + PredicatesOf(c)
    decreases |calls|
  {
    if calls == [] {
      assert (calls + [c])[1..] == [];
    } else {
      assert (calls + [c])[1..] == calls[1..] + [c];
      PredicatesGivenSnoc(calls[1..], c);
    }
  }

  lemma {:induction false} SortsGivenSnoc(calls: seq<BuilderCall>, c: BuilderCall)
    ensures SortsGiven(calls + [c]) == SortsGiven(calls) + SortsOf(c)
    decreases |calls|
  {
    if calls == [] {
      assert (calls + [c])[1..] == [];
    } else {
      assert (calls + [c])[1..] == calls[1..] + [c];
      SortsGivenSnoc(calls[1..], c);
    }
  }

  lemma {:induction false} FavoritesGivenSnoc(calls: seq<BuilderCall>, c: BuilderCall)
    ensures FavoritesGiven(calls + [c]) == FavoritesGiven(calls) + FavoritesOf(c)
    decreases |calls|
  {
    if calls == [] {
      assert (calls + [c])[1..] == [];
    } else {
      assert (calls + [c])[1..] == calls[1..] + [c];
      FavoritesGivenSnoc(calls[1..], c);
    }
  }

  lemma {:induction false} CredentialsGivenSnoc(calls: seq<BuilderCall>, c: BuilderCall)
    ensures CredentialsGiven(calls + [c]) == if c.SetCredentials? then c.credentials else CredentialsGiven(calls)
    decreases |calls|
  {
    var xs := calls + [c];
    if calls == [] {
      assert |xs| == 1;
    } else {
      assert xs[1..] == calls[1..] + [c];
      CredentialsGivenSnoc(calls[1..], c);
      if c.SetCredentials? {
        assert 1 <= |calls| < |xs| && xs[|calls|].SetCredentials?;
      } else if exists i :: 1 <= i < |calls| && calls[i].SetCredentials? {
        var i :| 1 <= i < |calls| && calls[i].SetCredentials?;
        assert xs[i].SetCredentials?;
      } else {
        assert !exists i :: 1 <= i < |xs| && xs[i].SetCredentials? by {
          forall i | 1 <= i < |xs| ensures !xs[i].SetCredentials? {
            if i < |calls| { assert xs[i] == calls[i]; }
          }
        }
      }
    }
  }

  lemma {:induction false} LimitGivenSnoc(calls: seq<BuilderCall>, c: BuilderCall)
    ensures LimitGiven(calls + [c]) == if c.SetLimit? then c.limit else LimitGiven(calls)
    decreases |calls|
  {
    var xs := calls + [c];
    if calls == [] {
      assert |xs| == 1;
    } else {
      assert xs[1..] == calls[1..] + [c];
      LimitGivenSnoc(calls[1..], c);
      if c.SetLimit? {
        assert 1 <= |calls| < |xs| && xs[|calls|].SetLimit?;
      } else if exists i :: 1 <= i < |calls| && calls[i].SetLimit? {
        var i :| 1 <= i < |calls| && calls[i].SetLimit?;
        assert xs[i].SetLimit?;
      } else {
        assert !exists i :: 1 <= i < |xs| && xs[i].SetLimit? by {
          forall i | 1 <= i < |xs| ensures !xs[i].SetLimit? {
            if i < |calls| { assert xs[i] == calls[i]; }
          }
        }
      }
    }
  }

  /** The builder gets through the calls exactly when none passes a null collection or a null single favorite. */
  lemma {:induction false} RunSucceeds(calls: seq<BuilderCall>)
    ensures Run(calls).Success? <==> forall i :: 0 <= i < |calls| ==> !RejectedCall(calls[i])
    decreases |calls|
  {
    if calls != [] {
      var init, last := calls[..|calls| - 1], calls[|calls| - 1];
      assert calls == init + [last];
      RunSucceeds(init);
      if Run(init).Failure? {
        var i :| 0 <= i < |init| && RejectedCall(init[i]);
        assert calls[i] == init[i];
      } else if !RejectedCall(last) {
        forall i | 0 <= i < |calls| ensures !RejectedCall(calls[i]) {
          if i < |init| { assert calls[i] == init[i]; }
        }
      }
    }
  }

  /**
   * A builder that gets through the calls holds the last credentials and limit
   * given, and every predicate, sort and favorite given, in call order.
   */
  lemma {:induction false} RunCollects(calls: seq<BuilderCall>)
    ensures Run(calls).Success? ==>
      Run(calls).value == Builder(CredentialsGiven(calls), PredicatesGiven(calls), LimitGiven(calls),
                                  SortsGiven(calls), FavoritesGiven(calls))
    decreases |calls|
  {
    if calls != [] {
      var init, last := calls[..|calls| - 1], calls[|calls| - 1];
      assert calls == init + [last];
      RunCollects(init);
      PredicatesGivenSnoc(init, last);
      SortsGivenSnoc(init, last);
      FavoritesGivenSnoc(init, last);
      CredentialsGivenSnoc(init, last);
      LimitGivenSnoc(init, last);
    }
  }

  /**
   * `build()` succeeds exactly when the builder refused no call and the
   * credentials were set to something non-null; the query then carries what
   * the calls gave, the favorites as a set.
   */
  lemma BuildQuery(calls: seq<BuilderCall>)
    ensures Build(calls).Success? <==>
      (forall i :: 0 <= i < |calls| ==> !RejectedCall(calls[i])) && CredentialsGiven(calls).Some?
    ensures Build(calls).Success? ==>
      Build(calls).value.endpoint == Endpoint &&
      Build(calls).value.credentials == CredentialsGiven(calls).value &&
      Build(calls).value.predicates == PredicatesGiven(calls) &&
      Build(calls).value.limit == LimitGiven(calls) &&
      Build(calls).value.sorts == SortsGiven(calls) &&
      forall n :: n in Build(calls).value.favorites <==> n in FavoritesGiven(calls)
  {
    RunSucceeds(calls);
    RunCollects(calls);
  }

  /** `build()` without credentials, or with null credentials, is rejected; credentials alone suffice. */
  lemma BuilderRequiresCredentials(c: Credentials)
    ensures Build([]).Failure?
    ensures Build([SetCredentials(None)]).Failure?
    ensures Build([SetCredentials(Some(c))]).Success?
  {
    assert [SetCredentials(None)][..0] == [] && [SetCredentials(Some(c))][..0] == [];
  }

  /** A null favorite, or a null collection of favorites, predicates or sorts, is rejected. */
  lemma BuilderRejectsNulls(c: Credentials)
    ensures Build([SetCredentials(Some(c)), AddFavorite(None)]).Failure?
    ensures Build([SetCredentials(Some(c)), AddFavorites(None)]).Failure?
    ensures Build([SetCredentials(Some(c)), AddPredicates(None)]).Failure?
    ensures Build([SetCredentials(Some(c)), AddSorts(None)]).Failure?
  {
    var s := SetCredentials(Some(c));
    assert [s][..0] == [];
    assert Run([s]) == Success(Builder(Some(c), [], None, [], []));
    assert [s, AddFavorite(None)][..1] == [s];
    assert [s, AddFavorites(None)][..1] == [s];
    assert [s, AddPredicates(None)][..1] == [s];
    assert [s, AddSorts(None)][..1] == [s];
  }

  /**
   * `favorites(...)` checks the collection, not its elements: a list holding a
   * null name gets through the builder and into the query.
   */
  lemma BuilderKeepsNullInFavoriteList(c: Credentials, x: string)
    ensures Build([SetCredentials(Some(c)), AddFavorites(Some([Some(x), None]))]).Success?
    ensures Build([SetCredentials(Some(c)), AddFavorites(Some([Some(x), None]))]).value.favorites == {Some(x), None}
  {
    var s := SetCredentials(Some(c));
    assert [s][..0] == [];
    assert Run([s]) == Success(Builder(Some(c), [], None, [], []));
    assert [s, AddFavorites(Some([Some(x), None]))][..1] == [s];
    assert [] + [Some(x), None] == [Some(x), None];
    assert (set n | n in [Some(x), None]) == {Some(x), None};
  }

  /** A null limit, and empty collections of favorites, predicates or sorts, are accepted. */
  lemma BuilderAcceptsEmpty(c: Credentials)
    ensures Build([SetCredentials(Some(c)), AddFavorites(Some([]))]).Success?
    ensures Build([SetCredentials(Some(c)), SetLimit(None)]).Success?
    ensures Build([SetCredentials(Some(c)), AddPredicates(Some([]))]).Success?
    ensures Build([SetCredentials(Some(c)), AddSorts(Some([]))]).Success?
  {
    var s := SetCredentials(Some(c));
    assert [s][..0] == [];
    assert Run([s]) == Success(Builder(Some(c), [], None, [], []));
    assert [s, AddFavorites(Some([]))][..1] == [s];
    assert [s, SetLimit(None)][..1] == [s];
    assert [s, AddPredicates(Some([]))][..1] == [s];
    assert [s, AddSorts(Some([]))][..1] == [s];
  }

  /** Sorts keep the order they were given in; a later limit replaces an earlier one. */
  lemma BuilderKeepsSortOrder(c: Credentials, a: Sort, b: Sort, l1: Limit, l2: Limit)
    ensures Build([SetCredentials(Some(c)), AddSort(a), SetLimit(Some(l1)), AddSorts(Some([b, a])), SetLimit(Some(l2))])
         == Success(Query(c, Endpoint, [], Some(l2), [a, b, a], {}))
  {
    var calls := [SetCredentials(Some(c)), AddSort(a), SetLimit(Some(l1)), AddSorts(Some([b, a])), SetLimit(Some(l2))];
    assert calls[..1][..0] == [];
    assert Run(calls[..1]) == Success(Builder(Some(c), [], None, [], []));
    assert calls[..2][..1] == calls[..1];
    assert [] + [a] == [a];
    assert Run(calls[..2]) == Success(Builder(Some(c), [], None, [a], []));
    assert calls[..3][..2] == calls[..2];
    assert Run(calls[..3]) == Success(Builder(Some(c), [], Some(l1), [a], []));
    assert calls[..4][..3] == calls[..3];
    assert [a] + [b, a] == [a, b, a];
    assert Run(calls[..4]) == Success(Builder(Some(c), [], Some(l1), [a, b, a], []));
    assert calls[..4] == calls[..|calls| - 1];
    assert Run(calls) == Success(Builder(Some(c), [], Some(l2), [a, b, a], []));
    assert (set n: Option<string> | n in []) == {};
    assert Build(calls).Success?;
    assert Build(calls).value.favorites == {} by {
      forall name | name in Build(calls).value.favorites ensures false {
      }
    }
  }

  /**
   * `build()` sees the favorites only as a set: two runs that differ in nothing
   * but the order and repetition of their favorites build the same query.
   */
  lemma BuildSeesFavoriteSet(calls1: seq<BuilderCall>, calls2: seq<BuilderCall>)
    requires Run(calls1).Success? && Run(calls2).Success?
    requires Run(calls1).value.(favorites := []) == Run(calls2).value.(favorites := [])
    requires forall n :: n in Run(calls1).value.favorites <==> n in Run(calls2).value.favorites
    ensures Build(calls1) == Build(calls2)
  {
    var b1, b2 := Run(calls1).value, Run(calls2).value;
    assert b1.credentials == b2.credentials && b1.predicates == b2.predicates;
    assert b1.limit == b2.limit && b1.sorts == b2.sorts;
    assert (set n | n in b1.favorites) == (set n | n in b2.favorites);
  }

  lemma RunRepeatedFavorite(c: Credentials, x: string, y: string)
    ensures Run([SetCredentials(Some(c)), AddFavorite(Some(x)), AddFavorite(Some(y)), AddFavorite(Some(x))])
         == Success(Builder(Some(c), [], None, [], [Some(x), Some(y), Some(x)]))
  {
    var calls := [SetCredentials(Some(c)), AddFavorite(Some(x)), AddFavorite(Some(y)), AddFavorite(Some(x))];
    var start := Builder(Some(c), [], None, [], []);
    assert calls[..1][..0] == [];
    assert Run(calls[..1]) == Success(start);
    assert calls[..2][..1] == calls[..1];
    assert [] + [Some(x)] == [Some(x)];
    assert Run(calls[..2]) == Success(start.(favorites := [Some(x)]));
    assert calls[..3][..2] == calls[..2];
    assert [Some(x)] + [Some(y)] == [Some(x), Some(y)];
    assert Run(calls[..3]) == Success(start.(favorites := [Some(x), Some(y)]));
    assert calls[..3] == calls[..|calls| - 1];
    assert [Some(x), Some(y)] + [Some(x)] == [Some(x), Some(y), Some(x)];
  }

  lemma RunFavoriteList(c: Credentials, x: string, y: string)
    ensures Run([SetCredentials(Some(c)), AddFavorites(Some([Some(y), Some(x)]))])
         == Success(Builder(Some(c), [], None, [], [Some(y), Some(x)]))
  {
    var calls := [SetCredentials(Some(c)), AddFavorites(Some([Some(y), Some(x)]))];
    assert calls[..1][..0] == [];
    assert Run(calls[..1]) == Success(Builder(Some(c), [], None, [], []));
    assert [] + [Some(y), Some(x)] == [Some(y), Some(x)];
  }

  /** Favorites form a set: repeating a name or changing the order of the calls does not matter. */
  lemma FavoritesIgnoreOrderAndRepeats(c: Credentials, x: string, y: string)
    ensures Build([SetCredentials(Some(c)), AddFavorite(Some(x)), AddFavorite(Some(y)), AddFavorite(Some(x))])
         == Build([SetCredentials(Some(c)), AddFavorites(Some([Some(y), Some(x)]))])
    ensures Build([SetCredentials(Some(c)), AddFavorites(Some([Some(y), Some(x)]))])
         == Success(Query(c, Endpoint, [], None, [], {Some(x), Some(y)}))
  {
    RunRepeatedFavorite(c, x, y);
    RunFavoriteList(c, x, y);
    assert (set n | n in [Some(y), Some(x)]) == {Some(x), Some(y)};
    BuildSeesFavoriteSet([SetCredentials(Some(c)), AddFavorite(Some(x)), AddFavorite(Some(y)), AddFavorite(Some(x))],
                         [SetCredentials(Some(c)), AddFavorites(Some([Some(y), Some(x)]))]);
  }

  // ---------------------------------------------------------------------------
  // The epoch: the whole seconds of EPOCH plus EPOCH_MICROSECONDS.
  // ---------------------------------------------------------------------------

  newtype Int32 = x: int | -0x8000_0000 <= x < 0x8000_0000

  const NanosPerSecond: int := 1_000_000_000
  const NanosPerMicro: int := 1_000
  const MicrosPerSecond: int := 1_000_000

  /** The seconds an instant can hold: -1000000000-01-01T00:00Z to 1000000000-12-31T23:59:59Z. */
  const MinSecond: int := -31557014167219200
  const MaxSecond: int := 31556889864403199

  /** An instant: seconds since 1970-01-01T00:00Z and the nanoseconds within that second. */
  datatype Instant = Instant(seconds: int, nanos: int)

  predicate ValidInstant(t: Instant) {
    MinSecond <= t.seconds <= MaxSecond && 0 <= t.nanos < NanosPerSecond
  }

  /** The instant as one count of nanoseconds since 1970-01-01T00:00Z. */
  function ToNanos(t: Instant): int {
    t.seconds * NanosPerSecond + t.nanos
  }

  /** `getEpoch` fails on a missing part (unboxing a null) or when the sum leaves the instant range. */
  datatype EpochError = NullValue | OutOfRange

  /** Division rounding toward zero, as `/` on a Java `long`. */
  function Quot(a: int, b: int): int
    requires b > 0
  {
    if a >= 0 then a / b else -((-a) / b)
  }

  /** The remainder that goes with `Quot`, as `%` on a Java `long`. */
  function Rem(a: int, b: int): int
    requires b > 0
  {
    a - b * Quot(a, b)
  }

  /** `Instant.plus(secondsToAdd, nanosToAdd)`, step by step. */
  function PlusSecondsNanos(t: Instant, secondsToAdd: int, nanosToAdd: int): Result<Instant, EpochError> {
    if secondsToAdd == 0 && nanosToAdd == 0 then Success(t)
    else
      var epochSec := t.seconds + secondsToAdd + Quot(nanosToAdd, NanosPerSecond);
      var nanoAdjustment := t.nanos + Rem(nanosToAdd, NanosPerSecond);
      // floorDiv and floorMod: Dafny's `/` and `%` with a positive divisor
      var secs := epochSec + nanoAdjustment / NanosPerSecond;
      var nos := nanoAdjustment % NanosPerSecond;
      if MinSecond <= secs <= MaxSecond then Success(Instant(secs, nos)) else Failure(OutOfRange)
  }

  /** `Instant.plus(amount, ChronoUnit.MICROS)`. */
  function PlusMicros(t: Instant, amount: int): Result<Instant, EpochError> {
    PlusSecondsNanos(t, Quot(amount, MicrosPerSecond), Rem(amount, MicrosPerSecond) * NanosPerMicro)
  }

  /** `getEpoch()`: EPOCH moved on by EPOCH_MICROSECONDS microseconds. */
  function GetEpoch(epochYmdHms: Option<Instant>, epochMicroseconds: Option<Int32>): (r: Result<Instant, EpochError>)
    requires epochYmdHms.Some? ==> ValidInstant(epochYmdHms.value)
    ensures epochYmdHms.None? || epochMicroseconds.None? <==> r == Failure(NullValue)
  {
    if epochYmdHms.None? || epochMicroseconds.None? then Failure(NullValue)
    else PlusMicros(epochYmdHms.value, epochMicroseconds.value as int)
  }

  lemma QuotRem(a: int, b: int)
    requires b > 0
    ensures a == b * Quot(a, b) + Rem(a, b)
    ensures -b < Rem(a, b) < b
    ensures a >= 0 ==> Rem(a, b) >= 0
  {
  }

  /** Floor division pinned down by its defining property. */
  lemma FloorDivision(x: int, q: int, r: int)
    requires x == q * NanosPerSecond + r && 0 <= r < NanosPerSecond
    ensures x / NanosPerSecond == q && x % NanosPerSecond == r
  {
  }

  /** `Instant.plus(seconds, nanos)` with less than a second of nanos lands on the exact sum. */
  lemma PlusSecondsNanosExact(t: Instant, secondsToAdd: int, nanosToAdd: int)
    requires 0 <= t.nanos < NanosPerSecond
    requires -NanosPerSecond < nanosToAdd < NanosPerSecond
    ensures var total := ToNanos(t) + secondsToAdd * NanosPerSecond + nanosToAdd;
      var r := PlusSecondsNanos(t, secondsToAdd, nanosToAdd);
      (r.Success? <==> (MinSecond <= total / NanosPerSecond <= MaxSecond || (secondsToAdd == 0 && nanosToAdd == 0))) &&
      (r.Success? ==> r.value == Instant(total / NanosPerSecond, total % NanosPerSecond))
  {
    var total := ToNanos(t) + secondsToAdd * NanosPerSecond + nanosToAdd;
    QuotRem(nanosToAdd, NanosPerSecond);
    assert Quot(nanosToAdd, NanosPerSecond) == 0;
    var nanoAdjustment := t.nanos + nanosToAdd;
    var carry := nanoAdjustment / NanosPerSecond;
    var nos := nanoAdjustment % NanosPerSecond;
    FloorDivision(nanoAdjustment, carry, nos);
    FloorDivision(total, t.seconds + secondsToAdd + carry, nos);
    if secondsToAdd == 0 && nanosToAdd == 0 {
      FloorDivision(total, t.seconds, t.nanos);
    }
  }

  /** A count of microseconds is its whole seconds and less than a second of nanoseconds. */
  lemma MicrosSplit(m: int)
    ensures m * NanosPerMicro == Quot(m, MicrosPerSecond) * NanosPerSecond + Rem(m, MicrosPerSecond) * NanosPerMicro
    ensures -NanosPerSecond < Rem(m, MicrosPerSecond) * NanosPerMicro < NanosPerSecond
    ensures Quot(m, MicrosPerSecond) == 0 && Rem(m, MicrosPerSecond) == 0 <==> m == 0
  {
    QuotRem(m, MicrosPerSecond);
  }

  /**
   * The step-by-step sum is the exact one: `getEpoch` succeeds exactly when
   * the whole seconds of EPOCH plus the microseconds stay in the instant range,
   * and is then that sum in normal form.
   */
  lemma EpochIsExactSum(t: Instant, micros: Int32)
    requires ValidInstant(t)
    ensures var total := ToNanos(t) + micros as int * NanosPerMicro;
      var r := GetEpoch(Some(t), Some(micros));
      (r.Success? <==> MinSecond <= total / NanosPerSecond <= MaxSecond) &&
      (r.Success? ==> r.value == Instant(total / NanosPerSecond, total % NanosPerSecond))
  {
    var m := micros as int;
    MicrosSplit(m);
    PlusSecondsNanosExact(t, Quot(m, MicrosPerSecond), Rem(m, MicrosPerSecond) * NanosPerMicro);
    if m == 0 {
      FloorDivision(ToNanos(t), t.seconds, t.nanos);
    }
  }

  /**
   * EPOCH holds whole seconds; with less than a second of microseconds the
   * epoch keeps those seconds and carries the microseconds as its fraction.
   */
  lemma EpochKeepsSecondsBelowOneSecond(t: Instant, micros: Int32)
    requires ValidInstant(t) && t.nanos == 0
    requires 0 <= micros as int < MicrosPerSecond
    ensures GetEpoch(Some(t), Some(micros)) == Success(Instant(t.seconds, micros as int * NanosPerMicro))
  {
    EpochIsExactSum(t, micros);
    FloorDivision(ToNanos(t) + micros as int * NanosPerMicro, t.seconds, micros as int * NanosPerMicro);
  }

  /** A whole second of microseconds or more carries into the seconds. */
  lemma EpochCarriesWholeSeconds(t: Instant, micros: Int32)
    requires ValidInstant(t) && t.nanos == 0 && t.seconds + 1 <= MaxSecond
    requires MicrosPerSecond <= micros as int < 2 * MicrosPerSecond
    ensures GetEpoch(Some(t), Some(micros)) ==
      Success(Instant(t.seconds + 1, (micros as int - MicrosPerSecond) * NanosPerMicro))
  {
    EpochIsExactSum(t, micros);
    FloorDivision(ToNanos(t) + micros as int * NanosPerMicro, t.seconds + 1, (micros as int - MicrosPerSecond) * NanosPerMicro);
  }

  /** More microseconds never give an earlier epoch. */
  lemma EpochMonotone(t: Instant, m1: Int32, m2: Int32)
    requires ValidInstant(t) && m1 <= m2
    requires GetEpoch(Some(t), Some(m1)).Success? && GetEpoch(Some(t), Some(m2)).Success?
    ensures ToNanos(GetEpoch(Some(t), Some(m1)).value) <= ToNanos(GetEpoch(Some(t), Some(m2)).value)
  {
    EpochIsExactSum(t, m1);
    EpochIsExactSum(t, m2);
    var total1 := ToNanos(t) + m1 as int * NanosPerMicro;
    var total2 := ToNanos(t) + m2 as int * NanosPerMicro;
    FloorDivision(total1, total1 / NanosPerSecond, total1 % NanosPerSecond);
    FloorDivision(total2, total2 / NanosPerSecond, total2 % NanosPerSecond);
  }
}
