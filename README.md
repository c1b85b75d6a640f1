# spacetrack: result-type validation, the latest-TLE query and the query predicates

This project models, in Dafny, three pieces of the spacetrack Java client for the Space-Track
catalogue service, and proves properties of them:

- **The result-type validator** (`ResultTypeValidator.validate`). It checks a result record class
  against the column schema that Space-Track publishes for a query class. Reflection is replaced
  by a descriptor table with one `FieldDesc` per declared field. Each descriptor records:
  - the Java name;
  - the `@JsonProperty` value, or none;
  - whether the field is static or `Optional`;
  - the value type, or the element type for an `Optional`;
  - whether it has a custom deserializer;
  - whether a default-constructed instance holds a non-null value.

  The downloaded schema becomes a sequence of `SchemaRow(Field, Type, Null)`. `Validate` is an
  imperative method. It runs the source's three loops, with its local map, as three helper methods. It is proved equal to a
  functional checker, `Check`, that returns the first violation in source order. `Check` is proved
  equivalent to a declarative statement of validity, `Valid`.
- **The `tle_latest` query** (`LatestTleQuery`). It covers:
  - the 32 query fields and their wire names;
  - the `LatestTle` record as a descriptor table that feeds straight into the validator;
  - the constructor's normalisation, and the Lombok builder in front of it;
  - `getEpoch`, with `java.time.Instant`'s step-by-step arithmetic.
- **The `Contains`, `StartsWith` and `IsNull` predicates** (`QueryPredicates`). It covers their
  checked construction, their getters and their `toQueryParameter` encoding with decimal rendering
  of integer operands. A decoder proves the encoding can be read back.

A Java `null` argument is modelled as `None`. An exception is modelled as a `Failure`/`Fail`
value.

Files:
- `wrappers.dfy`: `Option`, `Result` and `Outcome`.
- `predicates.dfy`: module `QueryPredicates`.
- `result_type_validator.dfy`: module `ResultTypeValidator`.
- `latest_tle_query.dfy`: module `LatestTleQuery`.

## Model

| member | source | states |
|---|---|---|
| ResultTypeValidator.Validate | src/test/java/com/stevenpaligo/spacetrack/ResultTypeValidator.java:46-255 | The loops return exactly the first violation `Check` reports, and pass exactly when the record is `Valid`: it has well-named fields and equal counts, every column has a conforming field, and every `Optional` is initialised. |
| ResultTypeValidator.IndexFields | src/test/java/com/stevenpaligo/spacetrack/ResultTypeValidator.java:54-83 | The indexing loop returns the same map or first naming error as the indexing specification, which `IndexCorrect` relates to well-formed names. |
| ResultTypeValidator.CheckSchemaRows | src/test/java/com/stevenpaligo/spacetrack/ResultTypeValidator.java:96-239 | The schema loop returns the first failing row's error, or passes, exactly as the row specification does. |
| ResultTypeValidator.CheckOptionalDefaults | src/test/java/com/stevenpaligo/spacetrack/ResultTypeValidator.java:245-254 | The defaults loop returns the first uninitialised `Optional` field, or passes, exactly as the defaults specification does. |
| ResultTypeValidator.CheckIffValid | src/test/java/com/stevenpaligo/spacetrack/ResultTypeValidator.java:46-255 | The first-violation checker (`Check`, over `CheckInstances`) passes if and only if the declarative validity predicate holds. |
| ResultTypeValidator.CheckIffConforms | src/test/java/com/stevenpaligo/spacetrack/ResultTypeValidator.java:54-254 | On the instance fields, the checks pass exactly when the fields have well-formed names, match the rows in number, give every row a conforming field and initialise every `Optional`. |
| ResultTypeValidator.CheckRowConforms | src/test/java/com/stevenpaligo/spacetrack/ResultTypeValidator.java:98-238 | One row (`CheckRow`) passes exactly when some field has the row's name, is `Optional` iff the column is nullable, and either has a custom deserializer or has a type the column's type string accepts. |
| ResultTypeValidator.CheckRowsPass | src/test/java/com/stevenpaligo/spacetrack/ResultTypeValidator.java:96-239 | The row loop passes exactly when every row passes on its own. |
| ResultTypeValidator.FirstFailingRowReported | src/test/java/com/stevenpaligo/spacetrack/ResultTypeValidator.java:96-239 | When every row before row `k` passes and row `k` fails, the row loop reports row `k`'s error. |
| ResultTypeValidator.CheckDefaultsPass | src/test/java/com/stevenpaligo/spacetrack/ResultTypeValidator.java:243-254 | The default check passes exactly when every `Optional` field is non-null in a default instance. |
| ResultTypeValidator.InstanceFields | src/test/java/com/stevenpaligo/spacetrack/ResultTypeValidator.java:50 | The filtered field list is no longer than the declared list. |
| ResultTypeValidator.InstanceFieldsMembers | src/test/java/com/stevenpaligo/spacetrack/ResultTypeValidator.java:50 | A field survives the filter exactly when it is declared and not static. |
| ResultTypeValidator.InstanceFieldsConcat | src/test/java/com/stevenpaligo/spacetrack/ResultTypeValidator.java:50 | The filter works field by field, so it distributes over concatenation and keeps declaration order. |
| ResultTypeValidator.NoStaticFields | src/test/java/com/stevenpaligo/spacetrack/ResultTypeValidator.java:50 | A class without static fields is validated on all its fields. |
| ResultTypeValidator.StaticFieldsIgnored | src/test/java/com/stevenpaligo/spacetrack/ResultTypeValidator.java:50 | Inserting a static field anywhere leaves the outcome unchanged, whatever its annotation or type. |
| ResultTypeValidator.IndexCorrect | src/test/java/com/stevenpaligo/spacetrack/ResultTypeValidator.java:54-83 | Indexing (`Index`) succeeds exactly when every field has a non-empty and unique JSON name, and it then maps each name to its field. |
| ResultTypeValidator.IndexFailureSticks | src/test/java/com/stevenpaligo/spacetrack/ResultTypeValidator.java:56-83 | The first field that breaks the naming rules decides the error; later fields do not change it. |
| ResultTypeValidator.WellNamedSnoc | src/test/java/com/stevenpaligo/spacetrack/ResultTypeValidator.java:56-83 | Adding a field keeps the names well formed exactly when its name is declared, non-empty and new. |
| ResultTypeValidator.IndexesAllSnoc | src/test/java/com/stevenpaligo/spacetrack/ResultTypeValidator.java:77 | Putting a new name into the map indexes the longer field list. |
| ResultTypeValidator.HasPrefixOfConcat | src/test/java/com/stevenpaligo/spacetrack/ResultTypeValidator.java:143 | Every string starts with any of its prefixes. |
| ResultTypeValidator.CharColumns | src/test/java/com/stevenpaligo/spacetrack/ResultTypeValidator.java:150-162 | `char(1)` accepts String or Character; every other `char(` type accepts only String. |
| ResultTypeValidator.DecimalColumns | src/test/java/com/stevenpaligo/spacetrack/ResultTypeValidator.java:178-190 | A `decimal(` type ending in `,0)` needs BigInteger; any other needs BigDecimal. |
| ResultTypeValidator.EnumColumns | src/test/java/com/stevenpaligo/spacetrack/ResultTypeValidator.java:199-211 | `enum('Y','N')` needs Boolean; every other `enum(` needs String. |
| ResultTypeValidator.DateColumns | src/test/java/com/stevenpaligo/spacetrack/ResultTypeValidator.java:164-176 | `datetime` accepts Instant or UtcInstant, and `date` accepts LocalDate. |
| ResultTypeValidator.BooleanColumns | src/test/java/com/stevenpaligo/spacetrack/ResultTypeValidator.java:143-237 | Boolean is accepted by exactly one column type, `enum('Y','N')`. |
| ResultTypeValidator.CharacterColumns | src/test/java/com/stevenpaligo/spacetrack/ResultTypeValidator.java:143-237 | Character is accepted by exactly one column type, `char(1)`. |
| ResultTypeValidator.IntColumn | src/test/java/com/stevenpaligo/spacetrack/ResultTypeValidator.java:220-225 | `int(11)` accepts only Integer. |
| ResultTypeValidator.VarcharColumn | src/test/java/com/stevenpaligo/spacetrack/ResultTypeValidator.java:227-232 | `varchar(255)` accepts only String. |
| ResultTypeValidator.BlobColumn | src/test/java/com/stevenpaligo/spacetrack/ResultTypeValidator.java:234-237 | A type with no entry in the table, such as `blob`, is unsupported. |
| ResultTypeValidator.BigIntegerColumnType | src/test/java/com/stevenpaligo/spacetrack/ResultTypeValidator.java:178-183 | `decimal(20,0)` accepts only BigInteger. |
| ResultTypeValidator.BigDecimalColumnType | src/test/java/com/stevenpaligo/spacetrack/ResultTypeValidator.java:185-190 | `decimal(20,8)` accepts only BigDecimal. |
| ResultTypeValidator.IntegralColumnTypes | src/test/java/com/stevenpaligo/spacetrack/ResultTypeValidator.java:143-225 | Long and Integer each have a column type that accepts them. |
| ResultTypeValidator.FloatingColumnTypes | src/test/java/com/stevenpaligo/spacetrack/ResultTypeValidator.java:192-218 | Double and Float each have a column type that accepts them. |
| ResultTypeValidator.TextColumnTypes | src/test/java/com/stevenpaligo/spacetrack/ResultTypeValidator.java:150-211 | String, Character and Boolean each have a column type that accepts them. |
| ResultTypeValidator.TimeColumnTypes | src/test/java/com/stevenpaligo/spacetrack/ResultTypeValidator.java:164-176 | LocalDate, Instant and UtcInstant each have a column type that accepts them. |
| ResultTypeValidator.ColumnTypeForAccepted | src/test/java/com/stevenpaligo/spacetrack/ResultTypeValidator.java:143-237 | Some column type string is accepted for a Java type by the type table (`AcceptedTypes`) exactly when the type is one of the table's twelve classes; for those, the canonical `ColumnTypeFor` string is one, and for any other class no string is. |
| ResultTypeValidator.UninitialisedOptionalFails | src/test/java/com/stevenpaligo/spacetrack/ResultTypeValidator.java:245-254 | One non-static `Optional` field that is null by default makes validation fail against every schema. |
| ResultTypeValidator.FirstUninitialisedReported | src/test/java/com/stevenpaligo/spacetrack/ResultTypeValidator.java:245-254 | The default check reports the first uninitialised `Optional` field in declaration order. |
| ResultTypeValidator.DefaultsDecideOnceRowsConform | src/test/java/com/stevenpaligo/spacetrack/ResultTypeValidator.java:91-254 | With well-formed names, equal counts and a conforming field for every row, the outcome is the default check's alone. |
| ResultTypeValidator.DistinctCard | src/test/java/com/stevenpaligo/spacetrack/ResultTypeValidator.java:77-83 | A list of distinct names has as many elements as its set. |
| ResultTypeValidator.ColumnsAreFieldNames | src/test/java/com/stevenpaligo/spacetrack/ResultTypeValidator.java:105-110 | When validation passes, every column name is some field's JSON name. |
| ResultTypeValidator.NameSetsAgree | src/test/java/com/stevenpaligo/spacetrack/ResultTypeValidator.java:77-110 | When validation passes and the column names are distinct, the field names and column names are the same set. |
| ResultTypeValidator.FieldNamesAreColumns | src/test/java/com/stevenpaligo/spacetrack/ResultTypeValidator.java:77-110 | Under the same conditions, every field's name is a column name. |
| ResultTypeValidator.ColumnOfField | src/test/java/com/stevenpaligo/spacetrack/ResultTypeValidator.java:98-126 | A field whose name is a column conforms to that column. |
| ResultTypeValidator.NoOrphanFields | src/test/java/com/stevenpaligo/spacetrack/ResultTypeValidator.java:91-126 | When validation passes and the column names are distinct, every field conforms to some column. |
| ResultTypeValidator.DuplicateColumnMasksField | src/test/java/com/stevenpaligo/spacetrack/ResultTypeValidator.java:91-110 | Without distinct column names the previous lemma fails: a schema that repeats column `A` passes a record whose field `B` matches no column. |
| ResultTypeValidator.OptionalityMutationFails | src/test/java/com/stevenpaligo/spacetrack/ResultTypeValidator.java:113-126 | Flipping one field's `Optional` status makes a passing record fail, when the column names are distinct, with exactly that field's error: required-but-nullable if it was `Optional`, optional-but-not-nullable if it was not. Earlier rows still pass, so this row's error is the one reported (`FirstFailingRowReported`). |
| ResultTypeValidator.ColumnTypeMutationFails | src/test/java/com/stevenpaligo/spacetrack/ResultTypeValidator.java:129-237 | Giving a field's column a type string that rejects the field's type makes validation fail, when the field has no custom deserializer. The error names the type string when the table has no entry for it (`AcceptedTypes` is none), and the field otherwise. |
| ResultTypeValidator.UnsupportedColumnTypeFails | src/test/java/com/stevenpaligo/spacetrack/ResultTypeValidator.java:234-237 | A column type string with no table entry makes validation fail with an error naming that type string, when no field of the column has a custom deserializer. |
| ResultTypeValidator.CustomDeserializerSkipsTypeCheck | src/test/java/com/stevenpaligo/spacetrack/ResultTypeValidator.java:130 | For a field with a custom deserializer, changing its column's type string to any other string, even an unsupported one, leaves the verdict exactly as it was. |
| ResultTypeValidator.SchemaOf | src/test/java/com/stevenpaligo/spacetrack/ResultTypeValidator.java:87-101 | The schema a record describes has one row per field. |
| ResultTypeValidator.SchemaOfRowsConform | src/test/java/com/stevenpaligo/spacetrack/ResultTypeValidator.java:98-237 | Each field conforms to the row derived from it. |
| ResultTypeValidator.InstancesValidateAgainstOwnSchema | src/test/java/com/stevenpaligo/spacetrack/ResultTypeValidator.java:91-254 | Non-static fields with well-formed names, supported types and initialised `Optional`s pass against the schema they describe. |
| ResultTypeValidator.ValidatesAgainstOwnSchema | src/test/java/com/stevenpaligo/spacetrack/ResultTypeValidator.java:46-255 | For a class whose instance fields are well named, have supported types or custom deserializers, and initialise every `Optional`, the whole validation passes against the schema those instance fields describe. Static fields may be anything. |
| LatestTleQuery.QueryFieldNamesDistinct | src/main/java/com/stevenpaligo/spacetrack/client/LatestTleQuery.java:40-297 | Two query fields have the same wire name exactly when they are the same field. |
| LatestTleQuery.WireNamesDistinct | src/main/java/com/stevenpaligo/spacetrack/client/LatestTleQuery.java:40-297 | The 32 wire names, in declaration order, are pairwise distinct. |
| LatestTleQuery.AllFieldsComplete | src/main/java/com/stevenpaligo/spacetrack/client/LatestTleQuery.java:40-297 | `values()` contains every constant of the enum, at its declaration position; with `AllFieldsDistinct`, each exactly once. |
| LatestTleQuery.AllFieldsDistinct | src/main/java/com/stevenpaligo/spacetrack/client/LatestTleQuery.java:40-297 | The 32 constants are pairwise distinct. |
| LatestTleQuery.Position | src/main/java/com/stevenpaligo/spacetrack/client/LatestTleQuery.java:40-297 | Every constant has an ordinal below 32 that names it. |
| LatestTleQuery.PositionOfFieldAt | src/main/java/com/stevenpaligo/spacetrack/client/LatestTleQuery.java:40-297 | The ordinal of the constant at position `i` is `i`. |
| LatestTleQuery.FieldNamedInverts | src/main/java/com/stevenpaligo/spacetrack/client/LatestTleQuery.java:40-297 | Looking up a field by its wire name (`QueryFieldName`) gives that field back. |
| LatestTleQuery.RecordMatchesQueryFields | src/main/java/com/stevenpaligo/spacetrack/client/LatestTleQuery.java:40-401 | Every record field (`DeclaredField`, from `JavaFieldName`, `JsonPropertyName` and `FieldType`) has a declared JSON name, and it is the wire name of its query field. |
| LatestTleQuery.FiveOptionalFields | src/main/java/com/stevenpaligo/spacetrack/client/LatestTleQuery.java:306-401 | A record field is `Optional` exactly when it is OBJECT_TYPE, INTLDES, OBJECT_ID, OBJECT_NUMBER or PERIOD. |
| LatestTleQuery.DeclaredClassesSupported | src/main/java/com/stevenpaligo/spacetrack/client/LatestTleQuery.java:306-401 | Every record field is an instance field of a supported type without a custom deserializer or initialiser. |
| LatestTleQuery.AsWrittenShape | src/main/java/com/stevenpaligo/spacetrack/client/LatestTleQuery.java:306-401 | All 32 declared fields (`LatestTleFieldsAsWritten`, built from `DeclaredField`) are instance fields of supported types, and none has an initialiser. So the five `Optional` ones (`FiveOptionalFields`) are left null. |
| LatestTleQuery.AsWrittenWellNamed | src/main/java/com/stevenpaligo/spacetrack/client/LatestTleQuery.java:306-401 | The declared fields, in the enum's order, have non-empty and pairwise distinct JSON names, so indexing them succeeds. |
| LatestTleQuery.ObjectTypeFirstOptional | src/main/java/com/stevenpaligo/spacetrack/client/LatestTleQuery.java:306-322 | `objectType` is the first `Optional` field in declaration order. |
| LatestTleQuery.AsWrittenFailsEverySchema | src/main/java/com/stevenpaligo/spacetrack/client/LatestTleQuery.java:321-322 | As declared, the record fails validation against every schema. |
| LatestTleQuery.AsWrittenReportsObjectType | src/test/java/com/stevenpaligo/spacetrack/ResultTypeValidator.java:245-254 | Against the schema it describes, the record as declared fails with `objectType` reported as an uninitialised `Optional`. |
| LatestTleQuery.DefaultsKeepShape | src/main/java/com/stevenpaligo/spacetrack/client/LatestTleQuery.java:306-401 | `WithEmptyDefaults` keeps the length and each field's Java name, JSON property, optionality, staticness, type and deserializer; a field is then initialised exactly when it was already or is `Optional`, so every `Optional` is initialised and well-named records stay well named. |
| LatestTleQuery.DefaultedFieldsValidate | src/test/java/com/stevenpaligo/spacetrack/ResultTypeValidator.java:46-255 | Well-named, supported fields with empty defaults pass validation against the schema they describe. |
| LatestTleQuery.DefaultedRecordValidates | src/test/java/com/stevenpaligo/spacetrack/client/LatestTleQueryTests.java:42-46 | The corrected record passes validation against the schema it describes, as its validation test expects, and it keeps the declared record's fields, names and five `Optional` ones. |
| LatestTleQuery.NewLatestTleQuery | src/main/java/com/stevenpaligo/spacetrack/client/LatestTleQuery.java:32-37 | Construction succeeds exactly when credentials, predicates, sorts and favorites are non-null. The query then targets `tle_latest` and carries the arguments unchanged; a null limit means no limit. |
| LatestTleQuery.RunSucceeds | src/main/java/com/stevenpaligo/spacetrack/client/LatestTleQuery.java:32-34 | A run of builder calls (`Run`, folding `Apply`) is rejected exactly when one call passes a null collection or passes null to `favorite(...)`. |
| LatestTleQuery.RunCollects | src/main/java/com/stevenpaligo/spacetrack/client/LatestTleQuery.java:32-34 | The builder holds the last credentials and limit given, and every predicate, sort and favorite given, in call order. |
| LatestTleQuery.PredicatesGivenSnoc | src/main/java/com/stevenpaligo/spacetrack/client/LatestTleQuery.java:33 | One more call appends its predicates to those already given. |
| LatestTleQuery.SortsGivenSnoc | src/main/java/com/stevenpaligo/spacetrack/client/LatestTleQuery.java:33 | One more call appends its sorts to those already given. |
| LatestTleQuery.FavoritesGivenSnoc | src/main/java/com/stevenpaligo/spacetrack/client/LatestTleQuery.java:34 | One more call appends its favorites to those already given. |
| LatestTleQuery.CredentialsGivenSnoc | src/main/java/com/stevenpaligo/spacetrack/client/LatestTleQuery.java:33 | A later `credentials` call replaces the earlier value. |
| LatestTleQuery.LimitGivenSnoc | src/main/java/com/stevenpaligo/spacetrack/client/LatestTleQuery.java:33 | A later `limit` call replaces the earlier value. |
| LatestTleQuery.BuildQuery | src/main/java/com/stevenpaligo/spacetrack/client/LatestTleQuery.java:32-37 | `build()` succeeds exactly when the builder refused no call and credentials were given and are non-null. The query then carries what the calls gave: the last credentials and limit, predicates and sorts in call order, and the set of favorites given. |
| LatestTleQuery.BuilderRequiresCredentials | src/test/java/com/stevenpaligo/spacetrack/client/LatestTleQueryTests.java:65-79 | No credentials, or null credentials, are rejected; credentials alone suffice. |
| LatestTleQuery.BuilderRejectsNulls | src/test/java/com/stevenpaligo/spacetrack/client/LatestTleQueryTests.java:82-135 | `favorite(null)` is rejected, and so is a null favorites, predicates or sorts collection. |
| LatestTleQuery.BuilderAcceptsEmpty | src/test/java/com/stevenpaligo/spacetrack/client/LatestTleQueryTests.java:94-141 | A null limit and empty favorites, predicates or sorts collections are accepted. |
| LatestTleQuery.BuilderKeepsNullInFavoriteList | src/main/java/com/stevenpaligo/spacetrack/client/LatestTleQuery.java:34 | In the model, `favorites(...)` checks only the collection: a list holding a null name builds, and the null name reaches the query's favorites (see the `LatestTleQuery.NewLatestTleQuery` line under "## Left out"). |
| LatestTleQuery.BuilderKeepsSortOrder | src/main/java/com/stevenpaligo/spacetrack/client/LatestTleQuery.java:33-36 | Sorts reach the query in the order given, and the last limit given wins. |
| LatestTleQuery.BuildSeesFavoriteSet | src/main/java/com/stevenpaligo/spacetrack/client/LatestTleQuery.java:34-36 | Two runs that differ only in the order or repetition of favorites build the same query. |
| LatestTleQuery.RunRepeatedFavorite | src/main/java/com/stevenpaligo/spacetrack/client/LatestTleQuery.java:34 | Single `favorite` calls are collected in call order, repeats included. |
| LatestTleQuery.RunFavoriteList | src/main/java/com/stevenpaligo/spacetrack/client/LatestTleQuery.java:34 | A `favorites` call adds its whole list. |
| LatestTleQuery.FavoritesIgnoreOrderAndRepeats | src/main/java/com/stevenpaligo/spacetrack/client/LatestTleQuery.java:34-36 | Favorites `x, y, x` one at a time build the same query as the list `[y, x]`, and that query's favorites are the set `{x, y}`. |
| LatestTleQuery.GetEpoch | src/main/java/com/stevenpaligo/spacetrack/client/LatestTleQuery.java:404-406 | `getEpoch` fails on a null part (unboxing null) and only then reports that failure. |
| LatestTleQuery.EpochIsExactSum | src/main/java/com/stevenpaligo/spacetrack/client/LatestTleQuery.java:404-406 | The step-by-step instant arithmetic (`PlusSecondsNanos` after `PlusMicros`) gives EPOCH plus the microseconds exactly, in normal form. It fails exactly when that sum's seconds leave the instant range. |
| LatestTleQuery.PlusSecondsNanosExact | src/main/java/com/stevenpaligo/spacetrack/client/LatestTleQuery.java:405 | `PlusSecondsNanos`: adding seconds and less than a second of nanoseconds gives the exact sum, normalised, when it is in range. |
| LatestTleQuery.MicrosSplit | src/main/java/com/stevenpaligo/spacetrack/client/LatestTleQuery.java:405 | Splitting microseconds into whole seconds and a remainder by truncating division loses nothing, and the remainder is under a second. |
| LatestTleQuery.QuotRem | src/main/java/com/stevenpaligo/spacetrack/client/LatestTleQuery.java:405 | Truncating division and its remainder recompose the dividend, and the remainder is smaller than the divisor. |
| LatestTleQuery.FloorDivision | src/main/java/com/stevenpaligo/spacetrack/client/LatestTleQuery.java:405 | Floor division by a second is fixed by quotient and remainder. |
| LatestTleQuery.EpochKeepsSecondsBelowOneSecond | src/main/java/com/stevenpaligo/spacetrack/client/LatestTleQuery.java:330-335 | A whole-second EPOCH plus under a second of microseconds keeps its seconds and gets the microseconds as its fraction. |
| LatestTleQuery.EpochCarriesWholeSeconds | src/main/java/com/stevenpaligo/spacetrack/client/LatestTleQuery.java:404-406 | One to two seconds' worth of microseconds carries one second into the seconds. |
| LatestTleQuery.EpochMonotone | src/main/java/com/stevenpaligo/spacetrack/client/LatestTleQuery.java:404-406 | More microseconds never give an earlier epoch. |
| QueryPredicates.NewContains | src/test/java/com/stevenpaligo/spacetrack/client/predicate/ContainsTests.java:41-65 | Construction succeeds exactly when field and operand are non-null, and the getters then return them. |
| QueryPredicates.NewStartsWith | src/test/java/com/stevenpaligo/spacetrack/client/predicate/StartsWithTests.java:42-66 | Construction succeeds exactly when field and operand are non-null, and the getters then return them. |
| QueryPredicates.NewIsNull | src/test/java/com/stevenpaligo/spacetrack/client/predicate/IsNullTests.java:42-50 | Construction succeeds exactly when the field is non-null, and the getter then returns it. |
| QueryPredicates.DigitChar | src/test/java/com/stevenpaligo/spacetrack/client/predicate/ContainsTests.java:78 | Each decimal digit renders as the character of that value. |
| QueryPredicates.NatToDecimalCanonical | src/test/java/com/stevenpaligo/spacetrack/client/predicate/ContainsTests.java:78 | A natural number renders as plain decimal digits with no leading zero, and those digits denote the number. |
| QueryPredicates.IntToDecimalRoundTrip | src/test/java/com/stevenpaligo/spacetrack/client/predicate/ContainsTests.java:78 | Parsing an integer operand's rendering (`IntToDecimal`) gives the integer back. |
| QueryPredicates.IntToDecimalInjective | src/test/java/com/stevenpaligo/spacetrack/client/predicate/StartsWithTests.java:79 | Distinct integers render differently. |
| QueryPredicates.DecodeEncode | src/test/java/com/stevenpaligo/spacetrack/client/predicate/ContainsTests.java:74 | A predicate's query parameter (`ToQueryParameter`), read back against its field's wire name, gives its operator and operand text. |
| QueryPredicates.EncodingDeterminesOperatorAndOperand | src/test/java/com/stevenpaligo/spacetrack/client/predicate/StartsWithTests.java:75 | On one wire name, equal encodings mean the same operator and operand text, and the same number for integer operands. |
| QueryPredicates.StartsWithDiffersFromContains | src/test/java/com/stevenpaligo/spacetrack/client/predicate/StartsWithTests.java:75 | StartsWith and Contains never encode the same field and operand alike. |
| QueryPredicates.IsNullDependsOnlyOnWireName | src/test/java/com/stevenpaligo/spacetrack/client/predicate/IsNullTests.java:58 | IsNull encodes as the wire name plus `/null-val`, whatever the field's other properties. |
| QueryPredicates.TextAndNumberOperandsCollide | src/test/java/com/stevenpaligo/spacetrack/client/predicate/ContainsTests.java:74-78 | Text `"255"` and the number 255 encode alike, so the encoding fixes only the operand text. |
| QueryPredicates.ContainsTestVectors | src/test/java/com/stevenpaligo/spacetrack/client/predicate/ContainsTests.java:41-91 | Null field or null operand is rejected; field with `"TEST"`, with 1 and with `"ABC"` is accepted, and the getters return `"ABC"` and the field; the encodings are `NORAD_CAT_ID/~~ABC` and `NORAD_CAT_ID/~~255`. |
| QueryPredicates.StartsWithTestVectors | src/test/java/com/stevenpaligo/spacetrack/client/predicate/StartsWithTests.java:42-92 | Null field (with `"ABC"` or with 1) or null operand is rejected; field with `"ABC"` and with 1 is accepted, and the getters return `"ABC"` and the field; the encodings are `NORAD_CAT_ID/^ABC` and `NORAD_CAT_ID/^1`. |
| QueryPredicates.IsNullTestVectors | src/test/java/com/stevenpaligo/spacetrack/client/predicate/IsNullTests.java:42-58 | The construction outcomes and encoding `NORAD_CAT_ID/null-val` that the IsNull tests assert. |

## Left out

- Reflection (`getDeclaredFields`, annotations, generic type arguments, `newInstance`) is replaced by the `FieldDesc` table. The model trusts the table to describe the class.
- `getDeclaredFields` does not promise any order, but the model takes a class's fields in declaration order. The claims about which error is reported first (`IndexFailureSticks`, `FirstUninitialisedReported`, `AsWrittenReportsObjectType` and the finding that names `objectType`) rest on that order.
- The schema download from the service (`readTree(URL)`) is an input sequence of rows. A missing `Field`, `Type` or `Null` entry in the JSON is not modelled.
- The text of the validator's exception messages is reduced to an error value that names the offending field or type.
- `Validate` compares a Java type with a class by identity. Here this is equality of `JavaType` tags, and any class outside the table is `OtherType`.
- Jackson deserialisation of responses, `@JsonFormat` parsing of EPOCH and `@JsonInclude` are not modelled. EPOCH arrives as an already parsed instant.
- The values of the Double and Float record fields are not modelled; only their type tags take part in validation.
- Network I/O (`execute()` against the live service), credential loading from system properties and the test-delay extension are not modelled.
- The Lombok builder throws NullPointerException for some null collections and IllegalArgumentException for others. Both are one `Rejected` outcome.
- A null single predicate or sort passed to `predicate(...)` or `sort(...)` is not modelled, because the builder does not reject it. `AddPredicate` and `AddSort` take non-null values.
- The generic `Query` superclass, `QueryFieldEnumValidator`, and the `Sort`/`Limit` classes and their request encodings are not part of this model. Their source is not shown, so `Limit` and `Sort` are carried through as opaque values.
- `LaunchSiteQuery` and its tests are not part of this model.
- QueryPredicates.NewContains: a `Number` operand is an unbounded integer, while the Java constructors of `Contains` and `StartsWith` take a 32-bit `Integer`. Every property proved holds for all integers, so it holds for the 32-bit ones in particular.
- LatestTleQuery.Query: the result class `LatestTle.class` that the constructor hands to the generic query has no field here. The record is modelled separately, as the `FieldDesc` table that feeds the validator.
- LatestTleQuery.NewLatestTleQuery: whether the generic `Query` superclass refuses a null name inside the favorites set is not modelled, because its source is not shown. The model passes such a set through unchanged, and only a null passed to `favorite(...)` is refused.
- LatestTleQuery.FieldNamed: has no contract of its own. Its reverse direction, that a name it maps to a field is that field's wire name, is not stated; only `FieldNamedInverts` is.
- LatestTleQuery.GetEpoch: the result is an instant (seconds and nanoseconds) rather than a bare count of microseconds. `EpochIsExactSum` gives that count times 1000.
- LatestTleQuery.GetEpoch: the intermediate `long` overflow checks of `Instant.plus` are not modelled. They cannot fire, because EPOCH is in the instant range and the microseconds fit in 32 bits.

## Findings

| source | as written | input that shows it | evidently intended | confidence | as-written member | corrected member |
|---|---|---|---|---|---|---|
| src/main/java/com/stevenpaligo/spacetrack/client/LatestTleQuery.java:321-322 | The five `Optional` fields of `LatestTle` (lines 322, 328, 386, 389, 395) have no initialiser, so a default-constructed record holds null there. The validator's default check (src/test/java/com/stevenpaligo/spacetrack/ResultTypeValidator.java:250) rejects it, yet src/test/java/com/stevenpaligo/spacetrack/client/LatestTleQueryTests.java:42-46 expects validation to pass. | `LatestTle` against any schema at all, including the one it describes: the outcome is a failure naming `objectType`. | Each `Optional` field initialised to `Optional.empty()`. | not executed | LatestTleQuery.AsWrittenFailsEverySchema | LatestTleQuery.DefaultedRecordValidates |
