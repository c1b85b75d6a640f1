/**
  The result-type validator: it checks a result record, described field by field, against
  the column schema the service publishes for the record's endpoint.

  Java reflection is replaced by an explicit descriptor per declared field (`FieldDesc`)
  and the downloaded schema by a sequence of rows (`SchemaRow`). `Validate` performs the
  checks in the source's order and reports the first violation; `Check` is the same
  verdict as a function, and `Valid` says declaratively what a passing record satisfies.
*/
module ResultTypeValidator {
  import opened Wrappers

  /** The Java classes a record field can hold (for an `Optional` field, its element class). */
  datatype JavaType =
    | LongType | IntegerType | StringType | CharacterType | LocalDateType | InstantType
    | UtcInstantType | BigIntegerType | BigDecimalType | DoubleType | FloatType | BooleanType
    | OtherType(className: string)

  /** One declared field of a result record. */
  datatype FieldDesc = FieldDesc(
    name: string,                  // the Java field name, used in error messages
    jsonProperty: Option<string>,  // the `@JsonProperty` value; `None` when the annotation is absent
    isStatic: bool,
    isOptional: bool,              // the declared type is `java.util.Optional`
    valueType: JavaType,           // the declared type, or the `Optional`'s type argument
    customDeserializer: bool,      // a `@JsonDeserialize` annotation is present
    initialisedByDefault: bool)    // the field is non-null in a default-constructed instance

  /** One entry of the schema's `data` array: its `Field`, `Type` and `Null` texts. */
  datatype SchemaRow = SchemaRow(field: string, typ: string, nullText: string)

  /** `JsonProperty.USE_DEFAULT_NAME`: the annotation's value when no name is given. */
  const UseDefaultName: string := ""

  datatype ValidationError =
    | MissingJsonProperty(fieldName: string)
    | MissingJsonName(fieldName: string)
    | DuplicateJsonName(fieldName: string)
    | FieldCountMismatch(schemaCount: nat, resultTypeCount: nat)
    | MissingSchemaField(schemaFieldName: string)
    | OptionalButNotNullable(fieldName: string)
    | RequiredButNullable(fieldName: string)
    | IncompatibleType(fieldName: string)
    | UnsupportedSchemaType(schemaFieldType: string)
    | OptionalNotInitialised(fieldName: string)

  // ---------------------------------------------------------------------------
  // Field descriptors and their JSON names.
  // ---------------------------------------------------------------------------

  /** The fields the validator looks at: the non-static ones, in declaration order. */
  function InstanceFields(fields: seq<FieldDesc>): (r: seq<FieldDesc>)
    ensures |r| <= |fields|
  {
    if fields == [] then []
    else (if fields[0].isStatic then [] else [fields[0]]) + InstanceFields(fields[1..])
  }

  /** The instance fields are exactly the declared fields that are not static. */
  lemma {:induction false} InstanceFieldsMembers(fields: seq<FieldDesc>)
    ensures forall f :: f in InstanceFields(fields) <==> f in fields && !f.isStatic
    decreases |fields|
  {
    if fields != [] {
      InstanceFieldsMembers(fields[1..]);
      assert forall f :: f in fields <==> f == fields[0] || f in fields[1..];
    }
  }

  /** A field whose annotation names a JSON property explicitly. */
  predicate Declared(f: FieldDesc) {
    f.jsonProperty.Some? && f.jsonProperty.value != UseDefaultName
  }

  function JsonName(f: FieldDesc): string {
    if f.jsonProperty.Some? then f.jsonProperty.value else UseDefaultName
  }

  /** Every field names its JSON property explicitly, and no two fields name the same one. */
  predicate WellNamed(fs: seq<FieldDesc>) {
    (forall i :: 0 <= i < |fs| ==> Declared(fs[i])) &&
    (forall i, j :: 0 <= i < j < |fs| ==> JsonName(fs[i]) != JsonName(fs[j]))
  }

  /** `m` maps each field's JSON name to that field, and holds no other name. */
  predicate IndexesAll(m: map<string, FieldDesc>, fs: seq<FieldDesc>) {
    (forall i :: 0 <= i < |fs| ==> JsonName(fs[i]) in m && m[JsonName(fs[i])] == fs[i]) &&
    (forall n :: n in m ==> exists i :: 0 <= i < |fs| && JsonName(fs[i]) == n)
  }

  /**
    The name index the first loop of `Validate` builds: fields are added in order, and the
    first field without an annotation, without a name, or with a name already indexed
    stops the indexing.
  */
  function Index(fs: seq<FieldDesc>): Result<map<string, FieldDesc>, ValidationError>
    decreases |fs|
  {
    if fs == [] then Success(map[])
    else
      var last := fs[|fs| - 1];
      match Index(fs[..|fs| - 1])
      case Failure(e) => Failure(e)
      case Success(m) =>
        if last.jsonProperty.None? then Failure(MissingJsonProperty(last.name))
        else if last.jsonProperty.value == UseDefaultName then Failure(MissingJsonName(last.name))
        else if last.jsonProperty.value in m then Failure(DuplicateJsonName(last.name))
        else Success(m[last.jsonProperty.value := last])
  }

  /** Appending a field keeps the sequence well named exactly when its name is declared and new. */
  lemma WellNamedSnoc(init: seq<FieldDesc>, last: FieldDesc)
    ensures WellNamed(init + [last]) <==>
      WellNamed(init) && Declared(last) && forall i :: 0 <= i < |init| ==> JsonName(init[i]) != JsonName(last)
  {
    var fs := init + [last];
    assert forall i :: 0 <= i < |init| ==> fs[i] == init[i];
    assert fs[|init|] == last;
    if WellNamed(init) && Declared(last) && forall i :: 0 <= i < |init| ==> JsonName(init[i]) != JsonName(last) {
      forall i, j | 0 <= i < j < |fs| ensures JsonName(fs[i]) != JsonName(fs[j]) {
        if j < |init| {
        } else {
          assert fs[j] == last;
        }
      }
    }
  }

  /** Adding a field under a new name to a complete index gives a complete index of the longer sequence. */
  lemma IndexesAllSnoc(m: map<string, FieldDesc>, init: seq<FieldDesc>, last: FieldDesc)
    requires IndexesAll(m, init) && JsonName(last) !in m
    ensures IndexesAll(m[JsonName(last) := last], init + [last])
  {
    var fs, m' := init + [last], m[JsonName(last) := last];
    assert forall i :: 0 <= i < |init| ==> fs[i] == init[i];
    assert fs[|init|] == last;
    forall n | n in m' ensures exists i :: 0 <= i < |fs| && JsonName(fs[i]) == n {
      if n != JsonName(last) {
        var i :| 0 <= i < |init| && JsonName(init[i]) == n;
        assert JsonName(fs[i]) == n;
      } else {
        assert JsonName(fs[|init|]) == n;
      }
    }
  }

  /** Indexing succeeds exactly for well-named fields, and then indexes every field by its name. */
  lemma {:induction false} IndexCorrect(fs: seq<FieldDesc>)
    ensures Index(fs).Success? <==> WellNamed(fs)
    ensures Index(fs).Success? ==> IndexesAll(Index(fs).value, fs)
    decreases |fs|
  {
    if fs != [] {
      var init, last := fs[..|fs| - 1], fs[|fs| - 1];
      assert fs == init + [last];
      IndexCorrect(init);
      WellNamedSnoc(init, last);
      if Index(init).Success? {
        var m := Index(init).value;
        if Declared(last) && JsonName(last) !in m {
          IndexesAllSnoc(m, init, last);
        } else if Declared(last) {
          assert exists i :: 0 <= i < |init| && JsonName(init[i]) == JsonName(last);
        }
      }
    }
  }

  /** Once indexing has failed on a prefix, it fails the same way on the whole sequence. */
  lemma {:induction false} IndexFailureSticks(fs: seq<FieldDesc>, n: nat)
    requires n <= |fs| && Index(fs[..n]).Failure?
    ensures Index(fs) == Index(fs[..n])
    decreases |fs| - n
  {
    if n < |fs| {
      assert fs[..n + 1][..n] == fs[..n];
      IndexFailureSticks(fs, n + 1);
    } else {
      assert fs[..n] == fs;
    }
  }

  // ---------------------------------------------------------------------------
  // The column-type table.
  // ---------------------------------------------------------------------------

  /** `s.startsWith(p)`. */
  predicate HasPrefix(s: string, p: string)
    decreases |p|
  {
    |p| == 0 || (|s| > 0 && s[0] == p[0] && HasPrefix(s[1..], p[1..]))
  }

  lemma {:induction false} HasPrefixOfConcat(p: string, rest: string)
    ensures HasPrefix(p + rest, p)
    decreases |p|
  {
    if |p| > 0 {
      assert (p + rest)[1..] == p[1..] + rest;
      HasPrefixOfConcat(p[1..], rest);
    }
  }

  /** `s.endsWith(p)`. */
  predicate HasSuffix(s: string, p: string) {
    |p| <= |s| && s[|s| - |p|..] == p
  }

  /**
    The Java classes a column of the given `Type` may be read into, or `None` for a type
    the validator does not support. The entries are tried in order, so `char(1)` is seen
    before `char(`, `decimal(..,0)` before `decimal(` and `enum('Y','N')` before `enum(`.
  */
  function AcceptedTypes(typ: string): Option<set<JavaType>> {
    if HasPrefix(typ, "bigint(") then Some({LongType})
    else if typ == "char(1)" then Some({StringType, CharacterType})
    else if HasPrefix(typ, "char(") then Some({StringType})
    else if typ == "date" then Some({LocalDateType})
    else if typ == "datetime" then Some({UtcInstantType, InstantType})
    else if HasPrefix(typ, "decimal(") && HasSuffix(typ, ",0)") then Some({BigIntegerType})
    else if HasPrefix(typ, "decimal(") then Some({BigDecimalType})
    else if HasPrefix(typ, "double(") || typ == "double" then Some({DoubleType})
    else if typ == "enum('Y','N')" then Some({BooleanType})
    else if HasPrefix(typ, "enum(") then Some({StringType})
    else if typ == "float" then Some({FloatType})
    else if HasPrefix(typ, "int(") || HasPrefix(typ, "mediumint(") || HasPrefix(typ, "smallint(") || HasPrefix(typ, "tinyint(") then Some({IntegerType})
    else if HasPrefix(typ, "varchar(") then Some({StringType})
    else None
  }

  predicate TypeCompatible(typ: string, t: JavaType) {
    AcceptedTypes(typ).Some? && t in AcceptedTypes(typ).value
  }

  /** A `char(1)` column takes a String or a Character; any other `char(` column only a String. */
  lemma CharColumns(typ: string)
    requires HasPrefix(typ, "char(")
    ensures AcceptedTypes(typ) == Some(if typ == "char(1)" then {StringType, CharacterType} else {StringType})
  {
  }

  /** A `decimal(` column ending in `,0)` takes a BigInteger; any other `decimal(` column a BigDecimal. */
  lemma DecimalColumns(typ: string)
    requires HasPrefix(typ, "decimal(")
    ensures AcceptedTypes(typ) == Some(if HasSuffix(typ, ",0)") then {BigIntegerType} else {BigDecimalType})
  {
  }

  /** `enum('Y','N')` takes a Boolean; any other `enum(` column a String. */
  lemma EnumColumns(typ: string)
    requires HasPrefix(typ, "enum(")
    ensures AcceptedTypes(typ) == Some(if typ == "enum('Y','N')" then {BooleanType} else {StringType})
  {
  }

  /** A `datetime` column takes an Instant or a UtcInstant, and `date` only a LocalDate. */
  lemma DateColumns()
    ensures AcceptedTypes("datetime") == Some({InstantType, UtcInstantType})
    ensures AcceptedTypes("date") == Some({LocalDateType})
  {
    assert !HasPrefix("datetime", "bigint(");
    assert !HasPrefix("datetime", "char(");
    assert !HasPrefix("date", "bigint(");
    assert !HasPrefix("date", "char(");
    assert "datetime" != "char(1)";
    assert "datetime" != "date";
    assert AcceptedTypes("datetime") == Some({UtcInstantType, InstantType});
    assert {UtcInstantType, InstantType} == {InstantType, UtcInstantType};
  }

  /** A Boolean field fits exactly the `enum('Y','N')` column. */
  lemma BooleanColumns(typ: string)
    ensures TypeCompatible(typ, BooleanType) <==> typ == "enum('Y','N')"
  {
    if typ == "enum('Y','N')" {
      EnumColumns(typ);
    }
  }

  /** A Character field fits exactly the `char(1)` column. */
  lemma CharacterColumns(typ: string)
    ensures TypeCompatible(typ, CharacterType) <==> typ == "char(1)"
  {
    if typ == "char(1)" {
      CharColumns(typ);
    }
  }

  /** A canonical column type for each supported Java class. */
  function ColumnTypeFor(t: JavaType): string {
    match t
    case LongType => "bigint(20)"
    case IntegerType => "int(11)"
    case StringType => "varchar(255)"
    case CharacterType => "char(1)"
    case LocalDateType => "date"
    case InstantType => "datetime"
    case UtcInstantType => "datetime"
    case BigIntegerType => "decimal(20,0)"
    case BigDecimalType => "decimal(20,8)"
    case DoubleType => "double"
    case FloatType => "float"
    case BooleanType => "enum('Y','N')"
    case OtherType(_) => "blob"
  }

  lemma IntColumn()
    ensures AcceptedTypes("int(11)") == Some({IntegerType})
  {
  }

  lemma VarcharColumn()
    ensures AcceptedTypes("varchar(255)") == Some({StringType})
  {
  }

  /** A type with no entry, here `blob`, accepts no class. */
  lemma BlobColumn()
    ensures AcceptedTypes("blob") == None
  {
  }

  lemma IntegralColumnTypes(t: JavaType)
    requires t in {LongType, IntegerType}
    ensures TypeCompatible(ColumnTypeFor(t), t)
  {
    if t == LongType {
      assert AcceptedTypes("bigint(20)") == Some({LongType});
    } else {
      IntColumn();
    }
  }

  lemma FloatingColumnTypes(t: JavaType)
    requires t in {DoubleType, FloatType}
    ensures TypeCompatible(ColumnTypeFor(t), t)
  {
    if t == DoubleType {
      assert AcceptedTypes("double") == Some({DoubleType});
    } else {
      assert AcceptedTypes("float") == Some({FloatType});
    }
  }

  lemma BigIntegerColumnType()
    ensures AcceptedTypes("decimal(20,0)") == Some({BigIntegerType})
  {
    HasPrefixOfConcat("decimal(", "20,0)");
    assert "decimal(" + "20,0)" == "decimal(20,0)";
    assert HasSuffix("decimal(20,0)", ",0)");
    DecimalColumns("decimal(20,0)");
  }

  lemma BigDecimalColumnType()
    ensures AcceptedTypes("decimal(20,8)") == Some({BigDecimalType})
  {
    HasPrefixOfConcat("decimal(", "20,8)");
    assert "decimal(" + "20,8)" == "decimal(20,8)";
    assert !HasSuffix("decimal(20,8)", ",0)") by {
      assert "decimal(20,8)"[10..] == ",8)";
      assert ",8)"[1] != ",0)"[1];
    }
    DecimalColumns("decimal(20,8)");
  }

  lemma TextColumnTypes(t: JavaType)
    requires t in {StringType, CharacterType, BooleanType}
    ensures TypeCompatible(ColumnTypeFor(t), t)
  {
    if t == StringType {
      VarcharColumn();
    } else if t == CharacterType {
      CharColumns("char(1)");
    } else {
      EnumColumns("enum('Y','N')");
    }
  }

  lemma TimeColumnTypes(t: JavaType)
    requires t in {LocalDateType, InstantType, UtcInstantType}
    ensures TypeCompatible(ColumnTypeFor(t), t)
  {
    DateColumns();
  }

  /** Every class but `OtherType` has a column type that accepts it; `OtherType` has none. */
  lemma ColumnTypeForAccepted(t: JavaType)
    ensures TypeCompatible(ColumnTypeFor(t), t) <==> !t.OtherType?
    ensures (exists typ :: TypeCompatible(typ, t)) <==> !t.OtherType?
  {
    if t.OtherType? {
      BlobColumn();
    } else if t in {LongType, IntegerType} {
      IntegralColumnTypes(t);
    } else if t in {DoubleType, FloatType} {
      FloatingColumnTypes(t);
    } else if t == BigIntegerType {
      BigIntegerColumnType();
    } else if t == BigDecimalType {
      BigDecimalColumnType();
    } else if t in {StringType, CharacterType, BooleanType} {
      TextColumnTypes(t);
    } else {
      TimeColumnTypes(t);
    }
    if t.OtherType? {
      forall typ ensures !TypeCompatible(typ, t) {
        NoColumnAcceptsOther(typ, t);
      }
    } else {
      assert TypeCompatible(ColumnTypeFor(t), t);
    }
  }

  /** No entry of the type table lists a class outside the table. */
  lemma NoColumnAcceptsOther(typ: string, t: JavaType)
    requires t.OtherType?
    ensures !TypeCompatible(typ, t)
  {
  }

  // ---------------------------------------------------------------------------
  // The checks, as functions, in the source's order.
  // ---------------------------------------------------------------------------

  /** A column is nullable exactly when its `Null` text is `YES`. */
  predicate Nullable(row: SchemaRow) {
    row.nullText == "YES"
  }

  /** The checks made for one schema row, given the name index. */
  function CheckRow(row: SchemaRow, index: map<string, FieldDesc>): Outcome<ValidationError> {
    if row.field !in index then Fail(MissingSchemaField(row.field))
    else
      var f := index[row.field];
      if Nullable(row) != f.isOptional then
        if f.isOptional then Fail(OptionalButNotNullable(f.name)) else Fail(RequiredButNullable(f.name))
      else if f.customDeserializer then Pass
      else if AcceptedTypes(row.typ).None? then Fail(UnsupportedSchemaType(row.typ))
      else if f.valueType !in AcceptedTypes(row.typ).value then Fail(IncompatibleType(f.name))
      else Pass
  }

  /** The first failing row, in schema order. */
  function CheckRows(rows: seq<SchemaRow>, index: map<string, FieldDesc>): Outcome<ValidationError>
    decreases |rows|
  {
    if rows == [] then Pass
    else match CheckRow(rows[0], index)
      case Fail(e) => Fail(e)
      case Pass => CheckRows(rows[1..], index)
  }

  /** The first `Optional` field left null by the no-argument constructor, in declaration order. */
  function CheckDefaults(fs: seq<FieldDesc>): Outcome<ValidationError>
    decreases |fs|
  {
    if fs == [] then Pass
    else if fs[0].isOptional && !fs[0].initialisedByDefault then Fail(OptionalNotInitialised(fs[0].name))
    else CheckDefaults(fs[1..])
  }

  /** The verdict of `validate`: `Pass`, or the first violation it throws for. */
  function Check(fields: seq<FieldDesc>, schema: seq<SchemaRow>): Outcome<ValidationError> {
    CheckInstances(InstanceFields(fields), schema)
  }

  /** The verdict, given the instance fields. */
  function CheckInstances(inst: seq<FieldDesc>, schema: seq<SchemaRow>): Outcome<ValidationError> {
    match Index(inst)
    case Failure(e) => Fail(e)
    case Success(index) =>
      if |inst| != |schema| then Fail(FieldCountMismatch(|schema|, |inst|))
      else match CheckRows(schema, index)
        case Fail(e) => Fail(e)
        case Pass => CheckDefaults(inst)
  }

  // ---------------------------------------------------------------------------
  // What a passing record satisfies.
  // ---------------------------------------------------------------------------

  /** Field `f` is the one row `row` describes: same name, same nullability, compatible type. */
  predicate RowConforms(row: SchemaRow, f: FieldDesc) {
    JsonName(f) == row.field &&
    f.isOptional == Nullable(row) &&
    (f.customDeserializer || TypeCompatible(row.typ, f.valueType))
  }

  /** Every `Optional` field has a non-null default. */
  predicate OptionalsInitialised(fs: seq<FieldDesc>) {
    forall i :: 0 <= i < |fs| ==> fs[i].isOptional ==> fs[i].initialisedByDefault
  }

  /** Some instance field is the one `row` describes. */
  predicate HasConformer(row: SchemaRow, inst: seq<FieldDesc>) {
    exists i :: 0 <= i < |inst| && RowConforms(row, inst[i])
  }

  /** The instance fields agree with the schema in every respect the validator checks. */
  predicate Conforms(inst: seq<FieldDesc>, schema: seq<SchemaRow>) {
    WellNamed(inst) &&
    |inst| == |schema| &&
    (forall k :: 0 <= k < |schema| ==> HasConformer(schema[k], inst)) &&
    OptionalsInitialised(inst)
  }

  /** The record agrees with the schema in every respect the validator checks. */
  predicate Valid(fields: seq<FieldDesc>, schema: seq<SchemaRow>) {
    Conforms(InstanceFields(fields), schema)
  }

  lemma {:induction false} CheckRowsPass(rows: seq<SchemaRow>, index: map<string, FieldDesc>)
    ensures CheckRows(rows, index) == Pass <==> forall k :: 0 <= k < |rows| ==> CheckRow(rows[k], index) == Pass
    decreases |rows|
  {
    if rows != [] {
      CheckRowsPass(rows[1..], index);
      assert forall k :: 1 <= k < |rows| ==> rows[k] == rows[1..][k - 1];
    }
  }

  lemma {:induction false} CheckDefaultsPass(fs: seq<FieldDesc>)
    ensures CheckDefaults(fs) == Pass <==> OptionalsInitialised(fs)
    decreases |fs|
  {
    if fs != [] {
      CheckDefaultsPass(fs[1..]);
      assert forall i :: 1 <= i < |fs| ==> fs[i] == fs[1..][i - 1];
    }
  }

  /** With a complete index, a row passes its checks exactly when some field conforms to it. */
  lemma CheckRowConforms(row: SchemaRow, index: map<string, FieldDesc>, fs: seq<FieldDesc>)
    requires IndexesAll(index, fs)
    ensures CheckRow(row, index) == Pass <==> HasConformer(row, fs)
  {
    if CheckRow(row, index) == Pass {
      var i :| 0 <= i < |fs| && JsonName(fs[i]) == row.field;
      assert RowConforms(row, fs[i]);
    }
  }

  /** The checks pass exactly for instance fields that conform to the schema. */
  lemma CheckIffConforms(inst: seq<FieldDesc>, schema: seq<SchemaRow>)
    ensures CheckInstances(inst, schema) == Pass <==> Conforms(inst, schema)
  {
    IndexCorrect(inst);
    CheckDefaultsPass(inst);
    if Index(inst).Success? && |inst| == |schema| {
      var index := Index(inst).value;
      CheckRowsPass(schema, index);
      forall k | 0 <= k < |schema|
        ensures CheckRow(schema[k], index) == Pass <==> HasConformer(schema[k], inst)
      {
        CheckRowConforms(schema[k], index, inst);
      }
    }
  }

  /** `validate` passes exactly for the records that agree with the schema. */
  lemma CheckIffValid(fields: seq<FieldDesc>, schema: seq<SchemaRow>)
    ensures Check(fields, schema) == Pass <==> Valid(fields, schema)
  {
    CheckIffConforms(InstanceFields(fields), schema);
  }

  // ---------------------------------------------------------------------------
  // The validator.
  // ---------------------------------------------------------------------------

  /** The indexing loop: maps each JSON name to its field, stopping at the first badly named field. */
  method IndexFields(inst: seq<FieldDesc>) returns (r: Result<map<string, FieldDesc>, ValidationError>)
    ensures r == Index(inst)
  {
    var index: map<string, FieldDesc> := map[];
    var i := 0;
    while i < |inst|
      invariant 0 <= i <= |inst|
      invariant Index(inst[..i]) == Success(index)
    {
      var f := inst[i];
      assert inst[..i + 1][..i] == inst[..i];
      if f.jsonProperty.None? {
        IndexFailureSticks(inst, i + 1);
        return Failure(MissingJsonProperty(f.name));
      }
      var jsonName := f.jsonProperty.value;
      if jsonName == UseDefaultName {
        IndexFailureSticks(inst, i + 1);
        return Failure(MissingJsonName(f.name));
      }
      if jsonName in index {
        IndexFailureSticks(inst, i + 1);
        return Failure(DuplicateJsonName(f.name));
      }
      index := index[jsonName := f];
      i := i + 1;
    }
    assert inst[..i] == inst;
    r := Success(index);
  }

  /** The schema loop: checks each row against the field of the same name, in schema order. */
  method CheckSchemaRows(schema: seq<SchemaRow>, index: map<string, FieldDesc>) returns (r: Outcome<ValidationError>)
    ensures r == CheckRows(schema, index)
  {
    var k := 0;
    while k < |schema|
      invariant 0 <= k <= |schema|
      invariant CheckRows(schema, index) == CheckRows(schema[k..], index)
    {
      var row := schema[k];
      assert schema[k..][0] == row && schema[k..][1..] == schema[k + 1..];
      var nullable := row.nullText == "YES";
      if row.field !in index {
        return Fail(MissingSchemaField(row.field));
      }
      var f := index[row.field];
      if nullable != f.isOptional {
        if f.isOptional {
          return Fail(OptionalButNotNullable(f.name));
        } else {
          return Fail(RequiredButNullable(f.name));
        }
      }
      if !f.customDeserializer {
        var accepted := AcceptedTypes(row.typ);
        if accepted.None? {
          return Fail(UnsupportedSchemaType(row.typ));
        }
        if f.valueType !in accepted.value {
          return Fail(IncompatibleType(f.name));
        }
      }
      k := k + 1;
    }
    r := Pass;
  }

  /** The defaults loop: the first `Optional` field a default instance leaves null. */
  method CheckOptionalDefaults(inst: seq<FieldDesc>) returns (r: Outcome<ValidationError>)
    ensures r == CheckDefaults(inst)
  {
    var j := 0;
    while j < |inst|
      invariant 0 <= j <= |inst|
      invariant CheckDefaults(inst) == CheckDefaults(inst[j..])
    {
      var f := inst[j];
      assert inst[j..][0] == f && inst[j..][1..] == inst[j + 1..];
      if f.isOptional && !f.initialisedByDefault {
        return Fail(OptionalNotInitialised(f.name));
      }
      j := j + 1;
    }
    r := Pass;
  }

  /**
    `ResultTypeValidator.validate`: indexes the instance fields by JSON name, compares the
    field count with the schema's, checks each schema row in order, then checks that every
    `Optional` field has a default. Returns the first violation met.
  */
  method Validate(fields: seq<FieldDesc>, schema: seq<SchemaRow>) returns (r: Outcome<ValidationError>)
    ensures r == Check(fields, schema)
    ensures r.Pass? <==> Valid(fields, schema)
  {
    CheckIffValid(fields, schema);
    var inst := InstanceFields(fields);
    var indexed := IndexFields(inst);
    if indexed.Failure? {
      return Fail(indexed.error);
    }
    if |inst| != |schema| {
      return Fail(FieldCountMismatch(|schema|, |inst|));
    }
    r := CheckSchemaRows(schema, indexed.value);
    if r.Fail? {
      return;
    }
    r := CheckOptionalDefaults(inst);
  }


  // ---------------------------------------------------------------------------
  // Properties of the verdict.
  // ---------------------------------------------------------------------------

  lemma {:induction false} InstanceFieldsConcat(a: seq<FieldDesc>, b: seq<FieldDesc>)
    ensures InstanceFields(a + b) == InstanceFields(a) + InstanceFields(b)
    decreases |a|
  {
    if a == [] {
      assert a + b == b;
    } else {
      var head := if a[0].isStatic then [] else [a[0]];
      assert (a + b)[0] == a[0];
      assert (a + b)[1..] == a[1..] + b;
      InstanceFieldsConcat(a[1..], b);
      calc {
        InstanceFields(a + b);
        head + InstanceFields(a[1..] + b);
        head + (InstanceFields(a[1..]) + InstanceFields(b));
        (head + InstanceFields(a[1..])) + InstanceFields(b);
        InstanceFields(a) + InstanceFields(b);
      }
    }
  }

  /** Each instance field is one of the declared fields. */
  lemma InstanceFieldOrigin(fields: seq<FieldDesc>, i: nat) returns (j: nat)
    requires i < |InstanceFields(fields)|
    ensures j < |fields| && fields[j] == InstanceFields(fields)[i]
  {
    InstanceFieldsMembers(fields);
    assert InstanceFields(fields)[i] in fields;
    j :| 0 <= j < |fields| && fields[j] == InstanceFields(fields)[i];
  }

  /** A record without static fields is its own list of instance fields. */
  lemma {:induction false} NoStaticFields(fields: seq<FieldDesc>)
    requires forall i :: 0 <= i < |fields| ==> !fields[i].isStatic
    ensures InstanceFields(fields) == fields
    decreases |fields|
  {
    if fields != [] {
      NoStaticFields(fields[1..]);
      assert [fields[0]] + fields[1..] == fields;
    }
  }

  /** A static field, wherever it is declared, changes nothing in the verdict. */
  lemma StaticFieldsIgnored(fields: seq<FieldDesc>, schema: seq<SchemaRow>, p: nat, s: FieldDesc)
    requires p <= |fields| && s.isStatic
    ensures Check(fields[..p] + [s] + fields[p..], schema) == Check(fields, schema)
  {
    InstanceFieldsConcat(fields[..p] + [s], fields[p..]);
    InstanceFieldsConcat(fields[..p], [s]);
    InstanceFieldsConcat(fields[..p], fields[p..]);
    assert InstanceFields([s]) == [];
    assert fields[..p] + fields[p..] == fields;
    assert InstanceFields(fields[..p] + [s] + fields[p..]) == InstanceFields(fields);
  }

  /** An `Optional` field with no default fails validation against every schema. */
  lemma UninitialisedOptionalFails(fields: seq<FieldDesc>, schema: seq<SchemaRow>, i: nat)
    requires i < |fields|
    requires !fields[i].isStatic && fields[i].isOptional && !fields[i].initialisedByDefault
    ensures Check(fields, schema).Fail?
  {
    var inst := InstanceFields(fields);
    CheckIffConforms(inst, schema);
    InstanceFieldsMembers(fields);
    assert fields[i] in inst;
    var j :| 0 <= j < |inst| && inst[j] == fields[i];
    assert !OptionalsInitialised(inst);
  }

  function Names(fs: seq<FieldDesc>): seq<string>
  {
    seq(|fs|, i requires 0 <= i < |fs| => JsonName(fs[i]))
  }

  function ColumnNames(schema: seq<SchemaRow>): seq<string>
  {
    seq(|schema|, k requires 0 <= k < |schema| => schema[k].field)
  }

  /** The elements of a sequence, as a set. */
  function Elements(xs: seq<string>): set<string>
  {
    set x | x in xs
  }

  predicate Distinct<T(==)>(xs: seq<T>) {
    forall i, j :: 0 <= i < j < |xs| ==> xs[i] != xs[j]
  }

  lemma {:induction false} DistinctCard(xs: seq<string>)
    requires Distinct(xs)
    ensures |Elements(xs)| == |xs|
    decreases |xs|
  {
    if xs != [] {
      DistinctCard(xs[1..]);
      assert Elements(xs) == Elements(xs[1..]) + {xs[0]};
    }
  }

  lemma SubsetSameSize<T>(a: set<T>, b: set<T>)
    requires a <= b && |a| == |b|
    ensures a == b
  {
    assert b == a + (b - a);
    assert |b| == |a| + |b - a|;
  }

  /** Every column name of a conforming schema is a field name. */
  lemma ColumnsAreFieldNames(inst: seq<FieldDesc>, schema: seq<SchemaRow>)
    requires Conforms(inst, schema)
    ensures Elements(ColumnNames(schema)) <= Elements(Names(inst))
  {
    forall n | n in ColumnNames(schema) ensures n in Names(inst) {
      var k :| 0 <= k < |schema| && ColumnNames(schema)[k] == n;
      var i :| 0 <= i < |inst| && RowConforms(schema[k], inst[i]);
      assert Names(inst)[i] == n;
    }
  }

  /** With distinct column names, conforming instance fields carry exactly the schema's column names. */
  lemma NameSetsAgree(inst: seq<FieldDesc>, schema: seq<SchemaRow>)
    requires Conforms(inst, schema)
    requires Distinct(ColumnNames(schema))
    ensures Elements(Names(inst)) == Elements(ColumnNames(schema))
  {
    ColumnsAreFieldNames(inst, schema);
    assert Distinct(Names(inst));
    DistinctCard(Names(inst));
    DistinctCard(ColumnNames(schema));
    SubsetSameSize(Elements(ColumnNames(schema)), Elements(Names(inst)));
  }

  lemma FieldNamesAreColumns(inst: seq<FieldDesc>, schema: seq<SchemaRow>, i: nat)
    requires Conforms(inst, schema)
    requires Distinct(ColumnNames(schema))
    requires i < |inst|
    ensures JsonName(inst[i]) in ColumnNames(schema)
  {
    NameSetsAgree(inst, schema);
    assert Names(inst)[i] in Elements(Names(inst));
  }

  /** A field whose name is a column's name is the field that column conforms to. */
  lemma ColumnOfField(inst: seq<FieldDesc>, schema: seq<SchemaRow>, i: nat) returns (k: nat)
    requires Conforms(inst, schema)
    requires i < |inst| && JsonName(inst[i]) in ColumnNames(schema)
    ensures k < |schema| && RowConforms(schema[k], inst[i])
  {
    k :| 0 <= k < |schema| && ColumnNames(schema)[k] == JsonName(inst[i]);
    var j :| 0 <= j < |inst| && RowConforms(schema[k], inst[j]);
    assert JsonName(inst[j]) == JsonName(inst[i]);
    assert j == i;
  }

  /**
    When the schema's column names are distinct, every conforming instance field, not only
    every column, has its conforming column. Without distinct column names this fails: see
    `DuplicateColumnMasksField`.
  */
  lemma NoOrphanFields(inst: seq<FieldDesc>, schema: seq<SchemaRow>, i: nat) returns (k: nat)
    requires Conforms(inst, schema)
    requires Distinct(ColumnNames(schema))
    requires i < |inst|
    ensures k < |schema| && RowConforms(schema[k], inst[i])
  {
    NameSetsAgree(inst, schema);
    FieldNamesAreColumns(inst, schema, i);
    k := ColumnOfField(inst, schema, i);
  }

  /** Two copies of one column pass for a record whose second field has no column at all. */
  lemma DuplicateColumnMasksField()
    ensures var a := FieldDesc("a", Some("A"), false, false, StringType, false, true);
            var b := FieldDesc("b", Some("B"), false, false, StringType, false, true);
            var row := SchemaRow("A", "varchar(255)", "NO");
            CheckInstances([a, b], [row, row]) == Pass
  {
    var a := FieldDesc("a", Some("A"), false, false, StringType, false, true);
    var b := FieldDesc("b", Some("B"), false, false, StringType, false, true);
    var row := SchemaRow("A", "varchar(255)", "NO");
    VarcharColumn();
    assert RowConforms(row, a);
    assert WellNamed([a, b]) by {
      assert JsonName(a) == "A" && JsonName(b) == "B";
      assert "A" != "B" by { assert "A"[0] != "B"[0]; }
    }
    assert Conforms([a, b], [row, row]) by {
      forall k | 0 <= k < 2 ensures exists i :: 0 <= i < 2 && RowConforms([row, row][k], [a, b][i]) {
        assert [a, b][0] == a;
      }
      assert OptionalsInitialised([a, b]);
    }
    CheckIffConforms([a, b], [row, row]);
  }

  /** The row loop reports the error of the first row that fails. */
  lemma {:induction false} FirstFailingRowReported(rows: seq<SchemaRow>, index: map<string, FieldDesc>, k: nat, e: ValidationError)
    requires k < |rows| && CheckRow(rows[k], index) == Fail(e)
    requires forall j :: 0 <= j < k ==> CheckRow(rows[j], index) == Pass
    ensures CheckRows(rows, index) == Fail(e)
    decreases k
  {
    if k > 0 {
      forall j | 0 <= j < k - 1 ensures CheckRow(rows[1..][j], index) == Pass {
        assert rows[1..][j] == rows[j + 1];
      }
      FirstFailingRowReported(rows[1..], index, k - 1, e);
    }
  }

  /** Two schemas whose rows check alike, row by row, check alike as a whole. */
  lemma {:induction false} CheckRowsPointwise(rows1: seq<SchemaRow>, rows2: seq<SchemaRow>, index: map<string, FieldDesc>)
    requires |rows1| == |rows2|
    requires forall j :: 0 <= j < |rows1| ==> CheckRow(rows1[j], index) == CheckRow(rows2[j], index)
    ensures CheckRows(rows1, index) == CheckRows(rows2, index)
    decreases |rows1|
  {
    if rows1 != [] {
      forall j | 0 <= j < |rows1| - 1 ensures CheckRow(rows1[1..][j], index) == CheckRow(rows2[1..][j], index) {
        assert rows1[1..][j] == rows1[j + 1] && rows2[1..][j] == rows2[j + 1];
      }
      CheckRowsPointwise(rows1[1..], rows2[1..], index);
    }
  }

  /** Changing a field's optionality but not its name keeps the names and the index. */
  lemma OptionalityKeepsNames(inst: seq<FieldDesc>, i: nat)
    requires WellNamed(inst) && i < |inst|
    ensures var mutated := inst[i := inst[i].(isOptional := !inst[i].isOptional)];
      WellNamed(mutated) && Index(mutated).Success? && IndexesAll(Index(mutated).value, mutated) &&
      Index(mutated).value[JsonName(mutated[i])] == mutated[i]
  {
    var mutated := inst[i := inst[i].(isOptional := !inst[i].isOptional)];
    forall j | 0 <= j < |inst| ensures JsonName(mutated[j]) == JsonName(inst[j]) && Declared(mutated[j]) == Declared(inst[j]) {
    }
    IndexCorrect(mutated);
  }

  /** The rows other than the mutated field's own column still find a conforming field. */
  lemma OtherRowsStillPass(inst: seq<FieldDesc>, schema: seq<SchemaRow>, i: nat, k: nat, index: map<string, FieldDesc>)
    requires Conforms(inst, schema) && Distinct(ColumnNames(schema))
    requires i < |inst| && k < |schema| && schema[k].field == JsonName(inst[i])
    requires IndexesAll(index, inst[i := inst[i].(isOptional := !inst[i].isOptional)])
    ensures forall j :: 0 <= j < k ==> CheckRow(schema[j], index) == Pass
  {
    var mutated := inst[i := inst[i].(isOptional := !inst[i].isOptional)];
    forall j | 0 <= j < k ensures CheckRow(schema[j], index) == Pass {
      assert HasConformer(schema[j], inst);
      var m :| 0 <= m < |inst| && RowConforms(schema[j], inst[m]);
      assert ColumnNames(schema)[j] != ColumnNames(schema)[k];
      assert m != i;
      assert RowConforms(schema[j], mutated[m]);
      CheckRowConforms(schema[j], index, mutated);
    }
  }

  /**
    Turning one conforming instance field from `Optional` to required, or back, makes the
    checks fail on that field's column, provided the schema's column names are distinct:
    a field made `Optional` is reported as optional against a non-nullable column, a field
    made required as required against a nullable one.
  */
  lemma OptionalityMutationFails(inst: seq<FieldDesc>, schema: seq<SchemaRow>, i: nat)
    requires Conforms(inst, schema) && Distinct(ColumnNames(schema))
    requires i < |inst|
    ensures CheckInstances(inst[i := inst[i].(isOptional := !inst[i].isOptional)], schema) ==
      Fail(if inst[i].isOptional then RequiredButNullable(inst[i].name) else OptionalButNotNullable(inst[i].name))
  {
    var mutated := inst[i := inst[i].(isOptional := !inst[i].isOptional)];
    var k := NoOrphanFields(inst, schema, i);
    OptionalityKeepsNames(inst, i);
    var index := Index(mutated).value;
    OtherRowsStillPass(inst, schema, i, k, index);
    var e := if inst[i].isOptional then RequiredButNullable(inst[i].name) else OptionalButNotNullable(inst[i].name);
    assert CheckRow(schema[k], index) == Fail(e);
    FirstFailingRowReported(schema, index, k, e);
  }

  /**
    Giving one column a type string that does not accept the class of its field (a type
    with no entry in the table included) makes the checks fail on that column, unless the
    field has a custom deserializer: an unsupported type is reported as such, any other
    as an incompatible field.
  */
  lemma ColumnTypeMutationFails(inst: seq<FieldDesc>, schema: seq<SchemaRow>, k: nat, typ: string, i: nat)
    requires Conforms(inst, schema) && k < |schema|
    requires i < |inst| && JsonName(inst[i]) == schema[k].field
    requires !inst[i].customDeserializer && !TypeCompatible(typ, inst[i].valueType)
    ensures CheckInstances(inst, schema[k := schema[k].(typ := typ)]) ==
      Fail(if AcceptedTypes(typ).None? then UnsupportedSchemaType(typ) else IncompatibleType(inst[i].name))
  {
    var mutated := schema[k := schema[k].(typ := typ)];
    IndexCorrect(inst);
    var index := Index(inst).value;
    forall j | 0 <= j < k ensures CheckRow(mutated[j], index) == Pass {
      assert mutated[j] == schema[j];
      CheckRowConforms(schema[j], index, inst);
    }
    assert HasConformer(schema[k], inst);
    var m :| 0 <= m < |inst| && RowConforms(schema[k], inst[m]);
    assert m == i;
    assert index[schema[k].field] == inst[i];
    var e := if AcceptedTypes(typ).None? then UnsupportedSchemaType(typ) else IncompatibleType(inst[i].name);
    assert CheckRow(mutated[k], index) == Fail(e);
    FirstFailingRowReported(mutated, index, k, e);
  }

  /** A column type with no table entry is reported as unsupported for a field without a custom deserializer. */
  lemma UnsupportedColumnTypeFails(inst: seq<FieldDesc>, schema: seq<SchemaRow>, k: nat, typ: string)
    requires Conforms(inst, schema) && k < |schema| && AcceptedTypes(typ).None?
    requires forall i :: 0 <= i < |inst| && JsonName(inst[i]) == schema[k].field ==> !inst[i].customDeserializer
    ensures CheckInstances(inst, schema[k := schema[k].(typ := typ)]) == Fail(UnsupportedSchemaType(typ))
  {
    assert HasConformer(schema[k], inst);
    var m :| 0 <= m < |inst| && RowConforms(schema[k], inst[m]);
    ColumnTypeMutationFails(inst, schema, k, typ, m);
  }

  /** For a field with a custom deserializer, its column's type string never changes the verdict. */
  lemma CustomDeserializerSkipsTypeCheck(inst: seq<FieldDesc>, schema: seq<SchemaRow>, k: nat, typ: string)
    requires k < |schema|
    requires forall i :: 0 <= i < |inst| && JsonName(inst[i]) == schema[k].field ==> inst[i].customDeserializer
    ensures CheckInstances(inst, schema[k := schema[k].(typ := typ)]) == CheckInstances(inst, schema)
  {
    var mutated := schema[k := schema[k].(typ := typ)];
    IndexCorrect(inst);
    if Index(inst).Success? {
      var index := Index(inst).value;
      forall j | 0 <= j < |schema| ensures CheckRow(mutated[j], index) == CheckRow(schema[j], index) {
        if j == k && schema[k].field in index {
          var i :| 0 <= i < |inst| && JsonName(inst[i]) == schema[k].field;
          assert index[schema[k].field] == inst[i];
        }
      }
      CheckRowsPointwise(mutated, schema, index);
    }
  }

  /** The schema some instance fields describe: one row per field, with a canonical column type. */
  function SchemaOf(inst: seq<FieldDesc>): (schema: seq<SchemaRow>)
    ensures |schema| == |inst|
  {
    seq(|inst|, i requires 0 <= i < |inst| =>
      SchemaRow(JsonName(inst[i]), ColumnTypeFor(inst[i].valueType), if inst[i].isOptional then "YES" else "NO"))
  }

  /** Each instance field conforms to the row `SchemaOf` describes it by. */
  lemma SchemaOfRowsConform(inst: seq<FieldDesc>)
    requires forall i :: 0 <= i < |inst| ==> inst[i].customDeserializer || !inst[i].valueType.OtherType?
    ensures forall k :: 0 <= k < |inst| ==> RowConforms(SchemaOf(inst)[k], inst[k])
  {
    forall k | 0 <= k < |inst| ensures RowConforms(SchemaOf(inst)[k], inst[k]) {
      ColumnTypeForAccepted(inst[k].valueType);
    }
  }

  /**
    When the names, the count and every row agree, the verdict is that of the last check:
    the first `Optional` field without a default, if any.
  */
  lemma DefaultsDecideOnceRowsConform(inst: seq<FieldDesc>, schema: seq<SchemaRow>)
    requires WellNamed(inst) && |inst| == |schema|
    requires forall k :: 0 <= k < |schema| ==> HasConformer(schema[k], inst)
    ensures CheckInstances(inst, schema) == CheckDefaults(inst)
  {
    IndexCorrect(inst);
    var index := Index(inst).value;
    CheckRowsPass(schema, index);
    forall k | 0 <= k < |schema| ensures CheckRow(schema[k], index) == Pass {
      CheckRowConforms(schema[k], index, inst);
    }
  }

  /** The defaults check reports the first `Optional` field without a default. */
  lemma {:induction false} FirstUninitialisedReported(fs: seq<FieldDesc>, i: nat)
    requires i < |fs| && fs[i].isOptional && !fs[i].initialisedByDefault
    requires forall j :: 0 <= j < i ==> !fs[j].isOptional || fs[j].initialisedByDefault
    ensures CheckDefaults(fs) == Fail(OptionalNotInitialised(fs[i].name))
    decreases i
  {
    if i > 0 {
      FirstUninitialisedReported(fs[1..], i - 1);
    }
  }

  /** Well-named instance fields with defaults and table classes pass against their own schema. */
  lemma InstancesValidateAgainstOwnSchema(inst: seq<FieldDesc>)
    requires WellNamed(inst) && OptionalsInitialised(inst)
    requires forall i :: 0 <= i < |inst| ==> inst[i].customDeserializer || !inst[i].valueType.OtherType?
    ensures CheckInstances(inst, SchemaOf(inst)) == Pass
  {
    var schema := SchemaOf(inst);
    SchemaOfRowsConform(inst);
    forall k | 0 <= k < |schema| ensures HasConformer(schema[k], inst) {
      assert RowConforms(schema[k], inst[k]);
    }
    DefaultsDecideOnceRowsConform(inst, schema);
    CheckDefaultsPass(inst);
  }

  /**
    A record whose instance fields are well named, have defaults for their `Optional`s and
    have classes with a table entry (or a custom deserializer) passes validation against the schema it describes.
  */
  lemma ValidatesAgainstOwnSchema(fields: seq<FieldDesc>)
    requires WellNamed(InstanceFields(fields))
    requires OptionalsInitialised(InstanceFields(fields))
    requires forall i :: 0 <= i < |InstanceFields(fields)| ==>
      InstanceFields(fields)[i].customDeserializer || !InstanceFields(fields)[i].valueType.OtherType?
    ensures Check(fields, SchemaOf(InstanceFields(fields))) == Pass
  {
    InstancesValidateAgainstOwnSchema(InstanceFields(fields));
  }
}
