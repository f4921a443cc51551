# FluentPagination filtering, modelled in Dafny

FluentPagination narrows an `IQueryable` of entities by a list of filters.
Each filter names a property of the entity, a `FilteringOperation` and a raw
string value. For each filter, `FilteringService` builds a predicate
`x => ...`. It picks the builder by the property's declared type: enumeration,
`string`, `bool`, `int`/`int?`/`double`/`double?`, or `DateTime`/`DateTime?`.
The builder checks the operation, parses the value (with "null" as a null
sentinel for numbers and dates) and throws on anything it cannot build. The
service then applies the predicates one after another with `Where`.

This project models that service:

- `wrappers.dfy`: `Option` (a C# null) and `Result` (a value or a thrown exception).
- `filtering_operation.dfy` (module `Enums`): the thirteen filtering operations.
- `text.dfy` (module `Text`): small explicit grammars that stand in for the
  .NET routines the service calls. These are `int.TryParse`, `double.TryParse`,
  `DateTime.TryParse`, `bool.TryParse`, `Enum.TryParse(..., ignoreCase: true)`
  and the ordinal case-insensitive comparison. The module also proves
  properties of these grammars.
- `expressions.dfy` (module `Expressions`): values, records (a map from
  property name to an optional value), and the predicate datatype. `Eq`, `Gt`,
  `Lt`, `Ge`, `Le` and `Call` mirror `Expression.Equal`, `GreaterThan`, ...,
  and `Expression.Call` of `string.Contains`/`StartsWith`/`EndsWith`. The
  module also has their meaning `Eval`, `Where`, and the specification `Keep`
  of a query narrowed by a conjunction.
- `filtering_service.dfy` (module `FilteringService`): the declared types,
  the filter, the error kinds and every builder of the service. `Filter` is a
  method whose loop reassigns the narrowed query once per filter.
- `filtering_properties.dfy` (module `FilteringProperties`): what the service
  promises for each type category, stated over the meaning of the predicates.
  It also covers the first-error rule of the filter list and a worked example.

Some behaviours of the code are easy to miss; the model follows the code:

- On a `bool` property the value is parsed before the operation is checked.
  An unparseable value therefore reports the invalid-value error even when
  the operation is also illegal.
- An enumeration filter ignores the requested operation. It always means
  equality with the named member.
- On a `double?` property every value other than the null sentinel is
  refused as invalid, numbers included. The code parses a double only when
  the declared type is exactly `double`.
- The property arrives already resolved, so there is no field-not-found
  error.
- Nullable `bool`, nullable enumerations and every other type fail with
  "Expression cannot be build" (`CannotBuild`), whatever the operation.

Error kinds: `InvalidEnumValue`, `NullNotAllowed` and `InvalidValue` stand
for the `ArgumentException`s. `OperatorNotAllowed(op)` stands for the
`ArgumentOutOfRangeException`s. `CannotBuild` stands for the
`InvalidOperationException`.

## Model

| member | source | states |
|---|---|---|
| FilteringService.Filter | FluentPagination/FluentPagination.Services/Filtering/FilteringService.cs:11-27 | With no filters the query comes back unchanged. Otherwise the result fails exactly when building the filter list fails, and with the same error. On success it is the query narrowed by the conjunction of the filters' predicates, in order. The loop invariant ties the accumulated query to the filters built so far. |
| FilteringService.PrefixFailure | FluentPagination/FluentPagination.Services/Filtering/FilteringService.cs:20-24 | Once building the first n filters has thrown, the whole list throws the same error. Later filters are never built. |
| FilteringService.BuildAll | FluentPagination/FluentPagination.Services/Filtering/FilteringService.cs:20-24 | A successful build yields one predicate per filter. |
| FilteringProperties.BuildAllInOrder | FluentPagination/FluentPagination.Services/Filtering/FilteringService.cs:18-24 | The list fails if and only if some filter fails, and then with the error of the first failing filter. Every earlier filter builds. On success, the k-th predicate is the k-th filter's own predicate. |
| FilteringProperties.FilterKeepsExactly | FluentPagination/FluentPagination.Services/Filtering/FilteringService.cs:11-27 | A record is in the filtered query if and only if it is in the query and satisfies every filter's predicate. |
| Expressions.Where | FluentPagination/FluentPagination.Services/Filtering/FilteringService.cs:23 | `Where` keeps exactly the records that satisfy the predicate: each satisfying record occurs in the result as often as in the query, and every other record not at all. The result is never longer than the query. |
| Expressions.WhereAfterKeep | FluentPagination/FluentPagination.Services/Filtering/FilteringService.cs:23 | One more `Where` on a query narrowed by a conjunction adds its predicate to the conjunction. |
| Expressions.KeepMembers | FluentPagination/FluentPagination.Services/Filtering/FilteringService.cs:18-26 | A record is kept if and only if it is in the query and satisfies every predicate. |
| Expressions.KeepShrinks | FluentPagination/FluentPagination.Services/Filtering/FilteringService.cs:18-26 | Narrowing never yields more records than the query has. |
| Expressions.KeepNothing | FluentPagination/FluentPagination.Services/Filtering/FilteringService.cs:13-16 | An empty conjunction returns the query unchanged. |
| Expressions.KeepSamePredicates | FluentPagination/FluentPagination.Services/Filtering/FilteringService.cs:20-24 | Any two lists holding the same predicates keep the same records in the same order, whatever the predicates' order or repetitions. |
| Expressions.KeepOrderIrrelevant | FluentPagination/FluentPagination.Services/Filtering/FilteringService.cs:20-24 | Applying a block of predicates before or after another block keeps the same records. |
| Expressions.HoldsAllAppend | FluentPagination/FluentPagination.Services/Filtering/FilteringService.cs:20-24 | Satisfying the concatenation of two predicate lists is satisfying both. |
| FilteringService.BuildFilteringExpression | FluentPagination/FluentPagination.Services/Filtering/FilteringService.cs:29-67 | The result is "cannot build" if and only if the declared type is none of: enumeration, string, bool, int, int?, double, double?, DateTime, DateTime?. A built predicate reads the filter's own property. |
| FilteringService.IsNullableType | FluentPagination/FluentPagination.Services/Filtering/FilteringService.cs:246-247 | A type is nullable exactly when it is not a plain value type. Nullable wrappers and reference types such as string are nullable. |
| FilteringService.BuildEnumExpression | FluentPagination/FluentPagination.Services/Filtering/FilteringService.cs:69-78 | Succeeds if and only if the value names a member, ignoring case; otherwise it fails with the invalid-enum error. On success the predicate is equality of the property with a member of the enumeration. |
| FilteringProperties.EnumFilter | FluentPagination/FluentPagination.Services/Filtering/FilteringService.cs:35-38 | Succeeds if and only if the value names a member, ignoring case. The predicate holds exactly when the property is the first member so named. Changing the requested operation does not change the outcome. |
| FilteringProperties.EnumIgnoresCase | FluentPagination/FluentPagination.Services/Filtering/FilteringService.cs:71 | Two values that differ only in letter case give the same predicate or the same error. |
| FilteringService.BuildStringExpression | FluentPagination/FluentPagination.Services/Filtering/FilteringService.cs:179-212 | Succeeds if and only if the operation is Equal, Contains, StartsWith or EndsWith. Any other operation fails with the operator error naming it. |
| FilteringProperties.StringFilter | FluentPagination/FluentPagination.Services/Filtering/FilteringService.cs:39-42 | Accepts exactly Equal, Contains, StartsWith and EndsWith. The value is used verbatim, with no null sentinel: Equal compares with the text, or tests for null when the value is null. Contains, StartsWith and EndsWith hold exactly when the property's text contains, starts with or ends with the value. |
| FilteringService.BuildBooleanExpression | FluentPagination/FluentPagination.Services/Filtering/FilteringService.cs:157-177 | Succeeds if and only if the operation is Equal and the value reads "true" or "false" in any letter case. An unparseable value fails with the invalid-value error whatever the operation. A parseable value with any other operation fails with the operator error. |
| FilteringProperties.BooleanFilter | FluentPagination/FluentPagination.Services/Filtering/FilteringService.cs:43-46 | The same acceptance rule through the type dispatch. The predicate holds exactly when the property equals the parsed boolean. |
| FilteringService.GetNullableTypesOperation | FluentPagination/FluentPagination.Services/Filtering/FilteringService.cs:234-244 | Succeeds if and only if the operation is Equal, and the predicate holds exactly when the property is null. Otherwise it fails with the operator error. |
| FilteringService.GetNumberOperation | FluentPagination/FluentPagination.Services/Filtering/FilteringService.cs:214-232 | Succeeds if and only if the operation is one of Equal, GreaterThan, LessThan, GreaterThanOrEqual and LessThanOrEqual, with the operator error otherwise. The predicate never holds of a null property. |
| FilteringProperties.ComparisonMeaning | FluentPagination/FluentPagination.Services/Filtering/FilteringService.cs:214-232 | The comparison predicate holds exactly when the property is not null and stands in the requested relation to the literal. |
| FilteringService.BuildNumberExpression | FluentPagination/FluentPagination.Services/Filtering/FilteringService.cs:80-109 | The null sentinel on a non-nullable property fails with the null error whatever the operation. Success implies a comparison operation. Any non-sentinel value on double? fails with the invalid-value error. |
| FilteringProperties.NullSentinelFilter | FluentPagination/FluentPagination.Services/Filtering/FilteringService.cs:84-92 | For number and date properties, a missing value or "null" in any case is the sentinel. On a non-nullable property it fails with the null error. On a nullable property only Equal is accepted, and it keeps the records whose property is null; any other operation fails with the operator error. |
| FilteringProperties.IntFilter | FluentPagination/FluentPagination.Services/Filtering/FilteringService.cs:93-97 | On int and int?, a non-sentinel value that is not a 32-bit integer fails with the invalid-value error whatever the operation. A parsed value succeeds if and only if the operation is one of the five comparisons; otherwise the operator error. |
| FilteringProperties.IntFilterMeaning | FluentPagination/FluentPagination.Services/Filtering/FilteringService.cs:93-97 | The predicate holds exactly when the property is an integer in the requested relation to the parsed value. |
| FilteringProperties.IntRefusesDecimalPoint | FluentPagination/FluentPagination.Services/Filtering/FilteringService.cs:93-105 | A value with a decimal point, such as "5.5", is refused as invalid on int and int?. |
| FilteringProperties.DoubleFilter | FluentPagination/FluentPagination.Services/Filtering/FilteringService.cs:98-102 | On double, a non-sentinel value that does not parse fails with the invalid-value error whatever the operation. A parsed value succeeds if and only if the operation is one of the five comparisons. |
| FilteringProperties.DoubleFilterMeaning | FluentPagination/FluentPagination.Services/Filtering/FilteringService.cs:98-102 | The predicate holds exactly when the property is a double in the requested relation to the parsed value. |
| FilteringProperties.DoubleAcceptsInteger | FluentPagination/FluentPagination.Services/Filtering/FilteringService.cs:93-102 | An integer value such as "5" on a double property is accepted and compared as that number. |
| FilteringProperties.NullableDoubleRefusesValues | FluentPagination/FluentPagination.Services/Filtering/FilteringService.cs:93-106 | On double?, every non-sentinel value fails with the invalid-value error. |
| FilteringService.BuildDateTimeExpression | FluentPagination/FluentPagination.Services/Filtering/FilteringService.cs:111-155 | The null sentinel on a non-nullable property fails with the null error. A value that is not a date fails with the invalid-value error. Success implies one of the five comparisons. |
| FilteringProperties.DateTimeFilter | FluentPagination/FluentPagination.Services/Filtering/FilteringService.cs:124-152 | A non-sentinel value that is not a date fails with the invalid-value error whatever the operation. A parsed date succeeds if and only if the operation is one of the five comparisons; otherwise the operator error. |
| FilteringProperties.DateTimeFilterMeaning | FluentPagination/FluentPagination.Services/Filtering/FilteringService.cs:124-147 | The predicate holds exactly when the property is a DateTime whose ticks stand in the requested relation to the parsed ticks. `TicksChronological` shows that tick order is calendar order. |
| FilteringProperties.AgeFilterBuilds | FluentPagination/FluentPagination.Services/Filtering/FilteringService.cs:93-97 | "18" with GreaterThanOrEqual on an int property builds "age >= 18". |
| FilteringProperties.TwoPeopleExample | FluentPagination/FluentPagination.Services/Filtering/FilteringService.cs:11-27 | Alice (30) and Bob (17), filtered by "age >= 18" and "name contains i", leave Alice alone. |
| FilteringProperties.RefusalExamples | FluentPagination/FluentPagination.Services/Filtering/FilteringService.cs:84-92 | "NULL" on a non-nullable DateTime fails with the null error. Contains on an int property fails with the operator error. |
| Text.ParseInt | FluentPagination/FluentPagination.Services/Filtering/FilteringService.cs:93 | A parsed integer lies in the 32-bit signed range. A string with a decimal point, or an empty one, never parses. |
| Text.ParseIntOfDecimalString | FluentPagination/FluentPagination.Services/Filtering/FilteringService.cs:93 | Every 32-bit integer written in decimal parses back to itself. |
| Text.DigitsValueOfDigits | FluentPagination/FluentPagination.Services/Filtering/FilteringService.cs:93 | The decimal digits of a natural number are digits whose value is that number. |
| Text.ParseIntNotNull | FluentPagination/FluentPagination.Services/Filtering/FilteringService.cs:84 | No value that parses as an integer is the null sentinel. |
| Text.ParseDoubleOfInt | FluentPagination/FluentPagination.Services/Filtering/FilteringService.cs:98 | A value that parses as an integer parses as the same number as a double. |
| Text.ParseDateTime | FluentPagination/FluentPagination.Services/Filtering/FilteringService.cs:124 | A parsed date was written yyyy-MM-dd: four, two and two decimal digits separated by dashes, naming a valid calendar date (year at least 1, month 1 to 12, day within the month, leap years included). The result is the ticks of that date's midnight. |
| Text.TicksChronological | FluentPagination/FluentPagination.Services/Filtering/FilteringService.cs:124-147 | For two valid calendar dates, one comes before the other exactly when its ticks are smaller, and the ticks are equal exactly when the dates are. |
| Text.ParseDateString | FluentPagination/FluentPagination.Services/Filtering/FilteringService.cs:124 | Every valid date with a year of at most four digits, written `yyyy-MM-dd` with leading zeros, parses to the ticks of that date's midnight. |
| Text.ParseDateTimeChronological | FluentPagination/FluentPagination.Services/Filtering/FilteringService.cs:124 | Of two parsed date strings, the first has smaller ticks exactly when the date it names is earlier. |
| FilteringProperties.DateTimeLessThanMeansBefore | FluentPagination/FluentPagination.Services/Filtering/FilteringService.cs:124-138 | A LessThan filter on a DateTime property builds. It keeps a record whose property holds a valid date exactly when that date is earlier than the date written in the filter. |
| Text.ParseDouble | FluentPagination/FluentPagination.Services/Filtering/FilteringService.cs:98 | A string that parses as a double holds at least one digit. It holds no second '.'. Its first character is a sign, a digit or '.', and every later character is a digit or '.'. `ParseDoubleOfInt` connects it to the integer parser. |
| Text.EqualsIgnoreCaseMeaning | FluentPagination/FluentPagination.Services/Filtering/FilteringService.cs:84 | Comparison ignoring case holds exactly when the two strings have the same length and agree character by character after case folding. It is reflexive, symmetric and transitive. |
| Text.ParseBool | FluentPagination/FluentPagination.Services/Filtering/FilteringService.cs:160 | Parses exactly "true" and "false" in any letter case. Null and everything else fail. |
| Text.ParseEnum | FluentPagination/FluentPagination.Services/Filtering/FilteringService.cs:71 | Succeeds if and only if some member name equals the value ignoring case. It yields the first such member. |
| Text.FindNameIgnoresCase | FluentPagination/FluentPagination.Services/Filtering/FilteringService.cs:71 | Member lookup gives the same answer for two values that differ only in letter case. |

## Left out

- LINQ and reflection. `IQueryable`, expression trees, `Expression.Lambda` and reflection-based property access are replaced by the `Expr` datatype, evaluated by `Eval` over a record. A query is a finite sequence, and `Where` keeps the accepted records in their order. Deferred execution of the query is not modelled.
- Field lookup by name. The service receives an already-resolved property, so the model has no field-not-found path.
- .NET parser grammars. Each parser is a small stand-in. `int.TryParse` accepts an optional sign and decimal digits within the 32-bit range. `double.TryParse` accepts an optional sign and digits with at most one '.'; exponents, `NaN`, `Infinity`, thousands and culture separators, and overflow to infinity are not modelled. `DateTime.TryParse` accepts only a `yyyy-MM-dd` date; times of day, other formats and `DateTimeKind` are not modelled. `bool.TryParse` accepts "true"/"false" in any case, without trimming white space. `Enum.TryParse` accepts only a member name, not numeric strings, comma-separated flags or surrounding white space.
- Floating point. Double values are exact reals; rounding is not modelled. `DateTime` values are their tick counts.
- Case folding covers ASCII letters only, not the full Unicode table behind `StringComparison.OrdinalIgnoreCase`.
- `string.StartsWith(string)` and `string.EndsWith(string)` compare with the current culture in .NET. The model compares ordinally, like `string.Contains`.
- Expressions.Eval: a string method called on a null property, or with a null argument, is taken to be false. So is an ordering comparison with a null property; Equal treats null as equal only to null. These are evaluation-time behaviours outside the service's code.
- Error message text. Error kinds only; the service's messages mislabel DateTime errors as integer errors.
- Enumeration members are identified by their position in the `EnumKind` name list, which is taken to list the names in ascending order of underlying value; `Enum.TryParse` scans names in that order. Members that alias the same underlying value are not modelled: they would be one value in .NET but two positions here.
- Thread safety. The service has no concurrency.
