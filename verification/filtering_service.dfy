/** The filtering service: turns each filter (a property, a filtering
    operation and a raw string value) into a predicate over a record, and
    narrows a query by every filter's predicate in turn. */
module FilteringService {
  import opened Wrappers
  import opened Text
  import opened Enums
  import opened Expressions

  // ----- the declared types of properties -----

  /** The value types a property may be declared with, apart from `Nullable<T>`. */
  datatype ValueKind =
    | EnumKind(names: seq<string>)   // an enumeration, by its member names
    | BoolKind
    | IntKind
    | DoubleKind
    | DateTimeKind
    | OtherKind(name: string)        // long, float, decimal, Guid, ...

  /** A property's declared type. */
  datatype PropertyType =
    | Struct(kind: ValueKind)        // a value type `T`
    | NullableOf(kind: ValueKind)    // `Nullable<T>`, written `T?`
    | StringType                     // `string`
    | ClassType(name: string)        // any other reference type

  /** The property a filter reads, already resolved on the entity type. */
  datatype Property = Property(name: string, propertyType: PropertyType)

  /** One filter of a request. `value` is `None` when the request sent null. */
  datatype FluentFilterModel =
    FluentFilterModel(property: Property, filteringOperation: FilteringOperation, value: Option<string>)

  /** What the service throws. */
  datatype Error =
    | InvalidEnumValue                                  // ArgumentException
    | NullNotAllowed                                    // ArgumentException
    | InvalidValue                                      // ArgumentException
    | OperatorNotAllowed(operation: FilteringOperation) // ArgumentOutOfRangeException
    | CannotBuild                                       // InvalidOperationException

  /** The raw value that, in any letter case, asks for a null test. */
  const NullValue: string := "null"

  predicate IsValueType(t: PropertyType) {
    t.Struct? || t.NullableOf?
  }

  /** `Nullable.GetUnderlyingType`. */
  function UnderlyingType(t: PropertyType): Option<ValueKind> {
    if t.NullableOf? then Some(t.kind) else Option.None
  }

  /** The operations that compare a property with a literal by order or equality. */
  predicate IsComparison(op: FilteringOperation) {
    op == Equal || op == GreaterThan || op == LessThan || op == GreaterThanOrEqual || op == LessThanOrEqual
  }

  /** The operations a string property accepts. */
  predicate IsStringOperation(op: FilteringOperation) {
    op == Equal || op == Contains || op == StartsWith || op == EndsWith
  }

  /** A raw value that is missing, or "null" in any letter case. */
  predicate IsNullSentinel(value: Option<string>) {
    value.None? || EqualsIgnoreCase(value.value, NullValue)
  }

  /** The declared types the service can build a predicate for. */
  predicate IsSupported(t: PropertyType) {
    || (t.Struct? && t.kind.EnumKind?)
    || t == StringType
    || t == Struct(BoolKind)
    || t in {Struct(IntKind), NullableOf(IntKind), Struct(DoubleKind), NullableOf(DoubleKind)}
    || t in {Struct(DateTimeKind), NullableOf(DateTimeKind)}
  }

  // ----- the builders -----

  /** A property may hold null when it is `Nullable<T>` or not a value type. */
  function IsNullableType(t: PropertyType): (r: bool)
    ensures r <==> !t.Struct?
  {
    UnderlyingType(t).Some? || !IsValueType(t)
  }

  /** An enumeration property equals the member the value names, ignoring case. */
  function BuildEnumExpression(value: Option<string>, names: seq<string>, member: string): (r: Result<Expr, Error>)
    ensures r.Success? <==> value.Some? && exists j | 0 <= j < |names| :: EqualsIgnoreCase(names[j], value.value)
    ensures r.Failure? ==> r.error == InvalidEnumValue
    ensures r.Success? ==> r.value.Eq? && r.value.member == member && r.value.constant.Some?
    ensures r.Success? ==> r.value.constant.value.EnumVal? && r.value.constant.value.index < |names|
  {
    match ParseEnum(names, value)
    case None => Failure(InvalidEnumValue)
    case Some(k) => Success(Eq(member, Some(EnumVal(k))))
  }

  /** A number or date property compared with null: only Equal, meaning "is null". */
  function GetNullableTypesOperation(member: string, op: FilteringOperation): (r: Result<Expr, Error>)
    ensures r.Success? <==> op == Equal
    ensures r.Failure? ==> r.error == OperatorNotAllowed(op)
    ensures r.Success? ==> forall rec :: Eval(r.value, rec) <==> Get(rec, member).None?
  {
    match op
    case Equal => Success(Eq(member, Option.None))
    case _ => Failure(OperatorNotAllowed(op))
  }

  /** A number property compared with a literal by one of the five comparisons. */
  function GetNumberOperation(member: string, constant: Scalar, op: FilteringOperation): (r: Result<Expr, Error>)
    ensures r.Success? <==> IsComparison(op)
    ensures r.Failure? ==> r.error == OperatorNotAllowed(op)
    ensures r.Success? ==> r.value.member == member
    ensures r.Success? ==> forall rec :: Get(rec, member).None? ==> (Eval(r.value, rec) <==> false)
  {
    match op
    case Equal => Success(Eq(member, Some(constant)))
    case GreaterThan => Success(Gt(member, constant))
    case LessThan => Success(Lt(member, constant))
    case LessThanOrEqual => Success(Le(member, constant))
    case GreaterThanOrEqual => Success(Ge(member, constant))
    case _ => Failure(OperatorNotAllowed(op))
  }

  /** An int, int?, double or double? property. The value is the null
      sentinel, an int for an int or int? property, or a double for a double
      property; anything else is invalid. */
  function BuildNumberExpression(op: FilteringOperation, value: Option<string>, member: string,
                                 propertyType: PropertyType): (r: Result<Expr, Error>)
    ensures IsNullSentinel(value) && !IsNullableType(propertyType) ==> r == Failure(NullNotAllowed)
    ensures r.Success? ==> IsComparison(op)
    ensures !IsNullSentinel(value) && propertyType == NullableOf(DoubleKind) ==> r == Failure(InvalidValue)
  {
    if value.None? || EqualsIgnoreCase(value.value, NullValue) then
      if !IsNullableType(propertyType) then Failure(NullNotAllowed)
      else GetNullableTypesOperation(member, op)
    else if ParseInt(value.value).Some? && (propertyType == Struct(IntKind) || propertyType == NullableOf(IntKind)) then
      GetNumberOperation(member, IntVal(ParseInt(value.value).value), op)
    else if ParseDouble(value.value).Some? && propertyType == Struct(DoubleKind) then
      GetNumberOperation(member, DoubleVal(ParseDouble(value.value).value), op)
    else
      Failure(InvalidValue)
  }

  /** A DateTime or DateTime? property: the null sentinel, or a date compared
      by one of the five comparisons. */
  function BuildDateTimeExpression(op: FilteringOperation, value: Option<string>, member: string,
                                   propertyType: PropertyType): (r: Result<Expr, Error>)
    ensures IsNullSentinel(value) && !IsNullableType(propertyType) ==> r == Failure(NullNotAllowed)
    ensures r.Success? ==> IsComparison(op)
    ensures !IsNullSentinel(value) && ParseDateTime(value.value).None? ==> r == Failure(InvalidValue)
  {
    if value.None? || EqualsIgnoreCase(value.value, NullValue) then
      if !IsNullableType(propertyType) then Failure(NullNotAllowed)
      else GetNullableTypesOperation(member, op)
    else if ParseDateTime(value.value).Some? then
      var constant := DateTimeVal(ParseDateTime(value.value).value);
      match op
      case Equal => Success(Eq(member, Some(constant)))
      case GreaterThan => Success(Gt(member, constant))
      case LessThan => Success(Lt(member, constant))
      case LessThanOrEqual => Success(Le(member, constant))
      case GreaterThanOrEqual => Success(Ge(member, constant))
      case _ => Failure(OperatorNotAllowed(op))
    else
      Failure(InvalidValue)
  }

  /** A bool property: the value must read "true" or "false" (checked before
      the operation), and only Equal is accepted. */
  function BuildBooleanExpression(op: FilteringOperation, value: Option<string>, member: string): (r: Result<Expr, Error>)
    ensures r.Success? <==> op == Equal && value.Some?
                            && (EqualsIgnoreCase(value.value, "true") || EqualsIgnoreCase(value.value, "false"))
    ensures ParseBool(value).None? ==> r == Failure(InvalidValue)
    ensures ParseBool(value).Some? && op != Equal ==> r == Failure(OperatorNotAllowed(op))
  {
    match ParseBool(value)
    case None => Failure(InvalidValue)
    case Some(b) =>
      match op
      case Equal => Success(Eq(member, Some(BoolVal(b))))
      case _ => Failure(OperatorNotAllowed(op))
  }

  /** A string property: the value is the literal as given (null included);
      Equal, Contains, StartsWith and EndsWith are accepted. */
  function BuildStringExpression(op: FilteringOperation, value: Option<string>, member: string): (r: Result<Expr, Error>)
    ensures r.Success? <==> IsStringOperation(op)
    ensures r.Failure? ==> r.error == OperatorNotAllowed(op)
  {
    match op
    case Equal => Success(Eq(member, if value.Some? then Some(StringVal(value.value)) else Option.None))
    case Contains => Success(Call(member, ContainsMethod, value))
    case StartsWith => Success(Call(member, StartsWithMethod, value))
    case EndsWith => Success(Call(member, EndsWithMethod, value))
    case _ => Failure(OperatorNotAllowed(op))
  }

  /** The predicate for one filter, chosen by the property's declared type:
      enumeration, string, bool, int/int?/double/double?, DateTime/DateTime?;
      any other type cannot be built. */
  function BuildFilteringExpression(filter: FluentFilterModel): (r: Result<Expr, Error>)
    ensures r == Failure(CannotBuild) <==> !IsSupported(filter.property.propertyType)
    ensures r.Success? ==> r.value.member == filter.property.name
  {
    var t := filter.property.propertyType;
    var member := filter.property.name;
    var op := filter.filteringOperation;
    if t.Struct? && t.kind.EnumKind? then
      BuildEnumExpression(filter.value, t.kind.names, member)
    else if t == StringType then
      BuildStringExpression(op, filter.value, member)
    else if t == Struct(BoolKind) then
      BuildBooleanExpression(op, filter.value, member)
    else if t == Struct(IntKind) || UnderlyingType(t) == Some(IntKind)
         || t == Struct(DoubleKind) || UnderlyingType(t) == Some(DoubleKind) then
      BuildNumberExpression(op, filter.value, member, t)
    else if t == Struct(DateTimeKind) || UnderlyingType(t) == Some(DateTimeKind) then
      BuildDateTimeExpression(op, filter.value, member, t)
    else
      Failure(CannotBuild)
  }

  // ----- the whole filter list -----

  /** The predicates of all filters, built in list order; the first filter
      that fails decides the error. */
  function BuildAll(filters: seq<FluentFilterModel>): (r: Result<seq<Expr>, Error>)
    ensures r.Success? ==> |r.value| == |filters|
  {
    if filters == [] then Success([])
    else
      match BuildAll(filters[..|filters| - 1])
      case Failure(e) => Failure(e)
      case Success(es) =>
        match BuildFilteringExpression(filters[|filters| - 1])
        case Failure(e) => Failure(e)
        case Success(e) => Success(es + [e])
  }

  /** Narrows `query` by every filter in turn. With no filters the query is
      returned unchanged; otherwise the result holds the records of `query`
      that satisfy every filter's predicate, in their order, or the error of
      the first filter whose predicate cannot be built. */
  method Filter(query: seq<Record>, filters: seq<FluentFilterModel>) returns (r: Result<seq<Record>, Error>)
    ensures filters == [] ==> r == Success(query)
    ensures r.Success? <==> BuildAll(filters).Success?
    ensures r.Failure? ==> r.error == BuildAll(filters).error
    ensures r.Success? ==> r.value == Keep(query, BuildAll(filters).value)
  {
    KeepNothing(query);
    if |filters| == 0 {
      return Success(query);
    }
    var mappedQuery := query;
    ghost var built: seq<Expr> := [];
    var i := 0;
    while i < |filters|
      invariant 0 <= i <= |filters|
      invariant BuildAll(filters[..i]) == Success(built)
      invariant mappedQuery == Keep(query, built)
    {
      assert filters[..i + 1][..i] == filters[..i];
      var expression := BuildFilteringExpression(filters[i]);
      if expression.Failure? {
        PrefixFailure(filters, i + 1);
        return Failure(expression.error);
      }
      WhereAfterKeep(query, built, expression.value);
      mappedQuery := Where(mappedQuery, expression.value);
      built := built + [expression.value];
      i := i + 1;
    }
    assert filters[..i] == filters;
    return Success(mappedQuery);
  }

  /** Once a prefix of the filters fails, the whole list fails with the same error. */
  lemma {:induction false} PrefixFailure(filters: seq<FluentFilterModel>, n: nat)
    requires n <= |filters|
    requires BuildAll(filters[..n]).Failure?
    ensures BuildAll(filters) == BuildAll(filters[..n])
    decreases |filters| - n
  {
    if n < |filters| {
      var m := |filters| - 1;
      assert filters[..m][..n] == filters[..n];
      PrefixFailure(filters[..m], n);
      assert filters[..m] == filters[..|filters| - 1];
    } else {
      assert filters[..n] == filters;
    }
  }
}
