/** What the filtering service promises, stated over the meaning of the
    predicates it builds rather than their shape. */
module FilteringProperties {
  import opened Wrappers
  import opened Text
  import opened Enums
  import opened Expressions
  import opened FilteringService

  /** The relation a comparison operation asks between a property value `x`
      and the literal `y`. */
  predicate Relates(op: FilteringOperation, x: real, y: real) {
    match op
    case Equal => x == y
    case GreaterThan => x > y
    case LessThan => x < y
    case GreaterThanOrEqual => x >= y
    case LessThanOrEqual => x <= y
    case _ => false
  }

/** Property value `v` stands in the relation `op` to literal `c`: both
      integers, both doubles or both dates. */
  predicate Compares(op: FilteringOperation, v: Scalar, c: Scalar) {
    match (v, c)
    case (IntVal(x), IntVal(y)) => Relates(op, x as real, y as real)
    case (DoubleVal(x), DoubleVal(y)) => Relates(op, x, y)
    case (DateTimeVal(x), DateTimeVal(y)) => Relates(op, x as real, y as real)
    case _ => false
  }

  /** A comparison predicate holds of a record exactly when the property is
      not null and stands in the requested relation to the literal. */
  lemma ComparisonMeaning(member: string, c: Scalar, op: FilteringOperation, rec: Record)
    requires c.IntVal? || c.DoubleVal? || c.DateTimeVal?
    requires GetNumberOperation(member, c, op).Success?
    ensures Eval(GetNumberOperation(member, c, op).value, rec)
            <==> Get(rec, member).Some? && Compares(op, Get(rec, member).value, c)
  {
  }

  // ----- the filter list -----

  /** The list fails exactly when one of its filters fails, and then with the
      error of the first failing filter; otherwise it holds each filter's own
      predicate, in list order. */
  lemma {:induction false} BuildAllInOrder(filters: seq<FluentFilterModel>)
    ensures BuildAll(filters).Failure?
            <==> exists k | 0 <= k < |filters| :: BuildFilteringExpression(filters[k]).Failure?
    ensures BuildAll(filters).Failure? ==>
              exists k | 0 <= k < |filters| ::
                && BuildFilteringExpression(filters[k]) == Failure(BuildAll(filters).error)
                && forall j | 0 <= j < k :: BuildFilteringExpression(filters[j]).Success?
    ensures BuildAll(filters).Success? ==>
              forall k | 0 <= k < |filters| ::
                BuildFilteringExpression(filters[k]) == Success(BuildAll(filters).value[k])
  {
    if filters != [] {
      var n := |filters| - 1;
      var prefix := filters[..n];
      BuildAllInOrder(prefix);
      assert forall k | 0 <= k < n :: prefix[k] == filters[k];
      match BuildAll(prefix)
      case Failure(e) =>
        var k :| 0 <= k < n
                 && BuildFilteringExpression(prefix[k]) == Failure(e)
                 && forall j | 0 <= j < k :: BuildFilteringExpression(prefix[j]).Success?;
        assert BuildFilteringExpression(filters[k]) == Failure(BuildAll(filters).error);
      case Success(es) =>
        assert forall k | 0 <= k < n :: BuildFilteringExpression(filters[k]).Success?;
        match BuildFilteringExpression(filters[n])
        case Failure(e) =>
        case Success(e) =>
          assert BuildAll(filters).value == es + [e];
          forall k | 0 <= k < |filters|
            ensures BuildFilteringExpression(filters[k]) == Success(BuildAll(filters).value[k])
          {
            if k < n { assert (es + [e])[k] == es[k]; }
          }
    }
  }

  /** A successful `Filter` keeps exactly the records of the query that
      satisfy every filter's predicate. */
  lemma FilterKeepsExactly(query: seq<Record>, filters: seq<FluentFilterModel>, x: Record)
    requires BuildAll(filters).Success?
    ensures x in Keep(query, BuildAll(filters).value)
            <==> x in query && forall k | 0 <= k < |filters| ::
                                 BuildFilteringExpression(filters[k]).Success?
                                 && Eval(BuildFilteringExpression(filters[k]).value, x)
  {
    BuildAllInOrder(filters);
    KeepMembers(query, BuildAll(filters).value, x);
  }

  // ----- enumeration properties -----

  /** An enumeration filter names a member, ignoring case, or fails with the
      invalid-enum error; its predicate is equality with the first member so
      named, and the requested operation plays no part. */
  lemma EnumFilter(f: FluentFilterModel, op: FilteringOperation, rec: Record)
    requires f.property.propertyType.Struct? && f.property.propertyType.kind.EnumKind?
    ensures var names := f.property.propertyType.kind.names;
            var r := BuildFilteringExpression(f);
            && (r.Success? <==> f.value.Some? && exists j | 0 <= j < |names| :: EqualsIgnoreCase(names[j], f.value.value))
            && (r.Failure? ==> r.error == InvalidEnumValue)
            && (r.Success? ==>
                  (Eval(r.value, rec) <==>
                     && Get(rec, f.property.name).Some?
                     && Get(rec, f.property.name).value.EnumVal?
                     && var k := Get(rec, f.property.name).value.index;
                        k < |names| && EqualsIgnoreCase(names[k], f.value.value)
                        && forall j | 0 <= j < k :: !EqualsIgnoreCase(names[j], f.value.value)))
    ensures BuildFilteringExpression(f.(filteringOperation := op)) == BuildFilteringExpression(f)
  {
  }

  /** Enumeration values are matched case-insensitively: values that differ
      only in letter case give the same predicate or the same error. */
  lemma EnumIgnoresCase(f: FluentFilterModel, other: string)
    requires f.property.propertyType.Struct? && f.property.propertyType.kind.EnumKind?
    requires f.value.Some? && EqualsIgnoreCase(f.value.value, other)
    ensures BuildFilteringExpression(f.(value := Some(other))) == BuildFilteringExpression(f)
  {
  }

  // ----- string properties -----

  /** A string filter accepts Equal, Contains, StartsWith and EndsWith and
      rejects every other operation; the value is taken verbatim (so "null"
      is the text "null") and compared case-sensitively. */
  lemma StringFilter(f: FluentFilterModel, rec: Record)
    requires f.property.propertyType == StringType
    ensures var op := f.filteringOperation;
            var r := BuildFilteringExpression(f);
            var v := Get(rec, f.property.name);
            && (r.Success? <==> op in {Equal, Contains, StartsWith, EndsWith})
            && (r.Failure? ==> r.error == OperatorNotAllowed(op))
            && (r.Success? && op == Equal ==>
                  (Eval(r.value, rec) <==> if f.value.Some? then v == Some(StringVal(f.value.value)) else v.None?))
            && (r.Success? && op == Contains ==>
                  (Eval(r.value, rec) <==> v.Some? && v.value.StringVal? && f.value.Some?
                                           && exists k: nat | k <= |v.value.s| :: OccursAt(f.value.value, v.value.s, k)))
            && (r.Success? && op == StartsWith ==>
                  (Eval(r.value, rec) <==> v.Some? && v.value.StringVal? && f.value.Some?
                                           && |f.value.value| <= |v.value.s| && v.value.s[..|f.value.value|] == f.value.value))
            && (r.Success? && op == EndsWith ==>
                  (Eval(r.value, rec) <==> v.Some? && v.value.StringVal? && f.value.Some?
                                           && |f.value.value| <= |v.value.s|
                                           && v.value.s[|v.value.s| - |f.value.value|..] == f.value.value))
  {
  }

  // ----- bool properties -----

  /** A bool filter reads "true" or "false" in any letter case; any other
      value is invalid whatever the operation, and of the operations only
      Equal is accepted. */
  lemma BooleanFilter(f: FluentFilterModel, rec: Record)
    requires f.property.propertyType == Struct(BoolKind)
    ensures var op := f.filteringOperation;
            var r := BuildFilteringExpression(f);
            var parses := f.value.Some? && (EqualsIgnoreCase(f.value.value, "true") || EqualsIgnoreCase(f.value.value, "false"));
            && (!parses ==> r == Failure(InvalidValue))
            && (parses && op != Equal ==> r == Failure(OperatorNotAllowed(op)))
            && (r.Success? <==> parses && op == Equal)
            && (r.Success? ==>
                  (Eval(r.value, rec) <==> Get(rec, f.property.name) == Some(BoolVal(EqualsIgnoreCase(f.value.value, "true")))))
  {
  }

  // ----- the null sentinel on number and date properties -----

  /** On a number or date property, a missing value or "null" (any letter
      case) is refused on a non-nullable property whatever the operation;
      on a nullable one only Equal is accepted, and it keeps the records
      whose property is null. */
  lemma NullSentinelFilter(f: FluentFilterModel, rec: Record)
    requires f.property.propertyType in {Struct(IntKind), NullableOf(IntKind), Struct(DoubleKind),
                                         NullableOf(DoubleKind), Struct(DateTimeKind), NullableOf(DateTimeKind)}
    requires IsNullSentinel(f.value)
    ensures var t := f.property.propertyType;
            var op := f.filteringOperation;
            var r := BuildFilteringExpression(f);
            && (t.Struct? ==> r == Failure(NullNotAllowed))
            && (t.NullableOf? ==> (r.Success? <==> op == Equal))
            && (t.NullableOf? && op != Equal ==> r == Failure(OperatorNotAllowed(op)))
            && (r.Success? ==> (Eval(r.value, rec) <==> Get(rec, f.property.name).None?))
  {
  }

  // ----- int and int? properties -----

  /** On an int or int? property a value other than the null sentinel must
      parse as a 32-bit integer, whatever the operation; it is then compared
      by one of the five comparisons, and every other operation (NotEqual
      included) is refused. */
  lemma IntFilter(f: FluentFilterModel)
    requires f.property.propertyType in {Struct(IntKind), NullableOf(IntKind)}
    requires !IsNullSentinel(f.value)
    ensures var op := f.filteringOperation;
            var r := BuildFilteringExpression(f);
            var n := ParseInt(f.value.value);
            && (n.None? ==> r == Failure(InvalidValue))
            && (n.Some? ==> (r.Success? <==> IsComparison(op)))
            && (n.Some? && !IsComparison(op) ==> r == Failure(OperatorNotAllowed(op)))
  {
  }

  /** The predicate of an int filter compares the property with the parsed
      integer; a null property never matches. */
  lemma IntFilterMeaning(f: FluentFilterModel, rec: Record)
    requires f.property.propertyType in {Struct(IntKind), NullableOf(IntKind)}
    requires !IsNullSentinel(f.value)
    requires BuildFilteringExpression(f).Success?
    ensures var v := Get(rec, f.property.name);
            Eval(BuildFilteringExpression(f).value, rec)
            <==> v.Some? && v.value.IntVal?
                 && Relates(f.filteringOperation, v.value.i as real, ParseInt(f.value.value).value as real)
  {
    var n := ParseInt(f.value.value).value;
    var op := f.filteringOperation;
    var t := f.property.propertyType;
    assert BuildFilteringExpression(f) == BuildNumberExpression(op, f.value, f.property.name, t);
    assert BuildNumberExpression(op, f.value, f.property.name, t) == GetNumberOperation(f.property.name, IntVal(n), op);
    ComparisonMeaning(f.property.name, IntVal(n), f.filteringOperation, rec);
  }

  /** A value with a decimal point is refused on an int or int? property. */
  lemma IntRefusesDecimalPoint(f: FluentFilterModel)
    requires f.property.propertyType in {Struct(IntKind), NullableOf(IntKind)}
    requires f.value.Some? && '.' in f.value.value
    ensures BuildFilteringExpression(f) == Failure(InvalidValue)
  {
  }

  // ----- double and double? properties -----

  /** On a double property a value other than the null sentinel must parse
      as a number, whatever the operation; it is then compared by one of the
      five comparisons, and every other operation is refused. */
  lemma DoubleFilter(f: FluentFilterModel)
    requires f.property.propertyType == Struct(DoubleKind)
    requires !IsNullSentinel(f.value)
    ensures var op := f.filteringOperation;
            var r := BuildFilteringExpression(f);
            var d := ParseDouble(f.value.value);
            && (d.None? ==> r == Failure(InvalidValue))
            && (d.Some? ==> (r.Success? <==> IsComparison(op)))
            && (d.Some? && !IsComparison(op) ==> r == Failure(OperatorNotAllowed(op)))
  {
    var op := f.filteringOperation;
    var t := Struct(DoubleKind);
    assert BuildFilteringExpression(f) == BuildNumberExpression(op, f.value, f.property.name, t);
    if ParseDouble(f.value.value).Some? {
      assert BuildNumberExpression(op, f.value, f.property.name, t)
             == GetNumberOperation(f.property.name, DoubleVal(ParseDouble(f.value.value).value), op);
    }
  }

  /** The predicate of a double filter compares the property numerically with
      the parsed value; a null property never matches. */
  lemma DoubleFilterMeaning(f: FluentFilterModel, rec: Record)
    requires f.property.propertyType == Struct(DoubleKind)
    requires !IsNullSentinel(f.value)
    requires BuildFilteringExpression(f).Success?
    ensures var v := Get(rec, f.property.name);
            Eval(BuildFilteringExpression(f).value, rec)
            <==> v.Some? && v.value.DoubleVal?
                 && Relates(f.filteringOperation, v.value.d, ParseDouble(f.value.value).value)
  {
    var d := ParseDouble(f.value.value).value;
    var op := f.filteringOperation;
    assert BuildFilteringExpression(f) == BuildNumberExpression(op, f.value, f.property.name, Struct(DoubleKind));
    assert BuildNumberExpression(op, f.value, f.property.name, Struct(DoubleKind))
           == GetNumberOperation(f.property.name, DoubleVal(d), op);
    ComparisonMeaning(f.property.name, DoubleVal(d), f.filteringOperation, rec);
  }

  /** On a double? property every value other than the null sentinel is
      refused as invalid, numbers included. */
  lemma NullableDoubleRefusesValues(f: FluentFilterModel)
    requires f.property.propertyType == NullableOf(DoubleKind)
    requires !IsNullSentinel(f.value)
    ensures BuildFilteringExpression(f) == Failure(InvalidValue)
  {
  }

  /** A whole number on a double property is accepted as that number. */
  lemma DoubleAcceptsInteger(f: FluentFilterModel, rec: Record)
    requires f.property.propertyType == Struct(DoubleKind)
    requires f.value.Some? && ParseInt(f.value.value).Some?
    requires IsComparison(f.filteringOperation)
    ensures var r := BuildFilteringExpression(f);
            var v := Get(rec, f.property.name);
            && r.Success?
            && (Eval(r.value, rec) <==>
                  v.Some? && v.value.DoubleVal?
                  && Relates(f.filteringOperation, v.value.d, ParseInt(f.value.value).value as real))
  {
    ParseDoubleOfInt(f.value.value);
    ParseIntNotNull(f.value.value);
    DoubleFilter(f);
    DoubleFilterMeaning(f, rec);
  }

  // ----- DateTime and DateTime? properties -----

  /** On a DateTime or DateTime? property a value other than the null
      sentinel must parse as a date, whatever the operation; it is then
      compared by one of the five comparisons, and every other operation is
      refused. */
  lemma DateTimeFilter(f: FluentFilterModel)
    requires f.property.propertyType in {Struct(DateTimeKind), NullableOf(DateTimeKind)}
    requires !IsNullSentinel(f.value)
    ensures var op := f.filteringOperation;
            var r := BuildFilteringExpression(f);
            var t := ParseDateTime(f.value.value);
            && (t.None? ==> r == Failure(InvalidValue))
            && (t.Some? ==> (r.Success? <==> IsComparison(op)))
            && (t.Some? && !IsComparison(op) ==> r == Failure(OperatorNotAllowed(op)))
  {
  }

  /** The predicate of a DateTime filter compares the property with the
      parsed instant chronologically; a null property never matches. */
  lemma DateTimeFilterMeaning(f: FluentFilterModel, rec: Record)
    requires f.property.propertyType in {Struct(DateTimeKind), NullableOf(DateTimeKind)}
    requires !IsNullSentinel(f.value)
    requires BuildFilteringExpression(f).Success?
    ensures var v := Get(rec, f.property.name);
            Eval(BuildFilteringExpression(f).value, rec)
            <==> v.Some? && v.value.DateTimeVal?
                 && Relates(f.filteringOperation, v.value.ticks as real, ParseDateTime(f.value.value).value as real)
  {
    var ticks := ParseDateTime(f.value.value).value;
    var op := f.filteringOperation;
    var t := f.property.propertyType;
    assert BuildFilteringExpression(f) == BuildDateTimeExpression(op, f.value, f.property.name, t);
    assert BuildDateTimeExpression(op, f.value, f.property.name, t)
           == GetNumberOperation(f.property.name, DateTimeVal(ticks), op);
    ComparisonMeaning(f.property.name, DateTimeVal(ticks), op, rec);
  }

  /** A LessThan filter on a DateTime property keeps a record exactly when the
      record's date comes before the date written in the filter. */
  lemma DateTimeLessThanMeansBefore(f: FluentFilterModel, rec: Record, y: nat, m: nat, d: int)
    requires f.property.propertyType in {Struct(DateTimeKind), NullableOf(DateTimeKind)}
    requires f.filteringOperation == LessThan
    requires f.value.Some? && ParseDateTime(f.value.value).Some?
    requires ValidDate(y, m, d) && Get(rec, f.property.name) == Some(DateTimeVal(Ticks(y, m, d)))
    ensures BuildFilteringExpression(f).Success?
    ensures var s := f.value.value;
            Eval(BuildFilteringExpression(f).value, rec)
            <==> DateBefore(y, m, d, DigitsValue(s[..4]), DigitsValue(s[5..7]), DigitsValue(s[8..]))
  {
    var s := f.value.value;
    assert |FoldCase(s)| == 10;
    DateTimeFilter(f);
    DateTimeFilterMeaning(f, rec);
    TicksChronological(y, m, d, DigitsValue(s[..4]), DigitsValue(s[5..7]), DigitsValue(s[8..]));
  }

  // ----- a worked example -----

  const Alice: Record := map["name" := Some(StringVal("Alice")), "age" := Some(IntVal(30)), "active" := Some(BoolVal(true))]
  const Bob: Record := map["name" := Some(StringVal("Bob")), "age" := Some(IntVal(17)), "active" := Some(BoolVal(false))]

  const AgeAtLeast18: FluentFilterModel := FluentFilterModel(Property("age", Struct(IntKind)), GreaterThanOrEqual, Some("18"))
  const NameContainsI: FluentFilterModel := FluentFilterModel(Property("name", StringType), Contains, Some("i"))

  /** "18" on an int property with GreaterThanOrEqual is the predicate "age >= 18". */
  lemma AgeFilterBuilds()
    ensures BuildFilteringExpression(AgeAtLeast18) == Success(Ge("age", IntVal(18)))
  {
    assert ParseInt("18") == Some(18) by {
      assert SplitSign("18") == (false, "18");
      assert "18"[..1] == "1" && "1"[..0] == "";
      assert DigitsValue("18") == 18;
    }
    assert !IsNullSentinel(Some("18")) by {
      assert |FoldCase("18")| != |FoldCase(NullValue)|;
    }
    assert BuildFilteringExpression(AgeAtLeast18)
           == BuildNumberExpression(GreaterThanOrEqual, Some("18"), "age", Struct(IntKind));
  }

  /** Filtering Alice (30) and Bob (17) by "age >= 18" and "name contains i"
      keeps Alice alone. */
  lemma TwoPeopleExample()
    ensures BuildAll([AgeAtLeast18, NameContainsI]).Success?
    ensures Keep([Alice, Bob], BuildAll([AgeAtLeast18, NameContainsI]).value) == [Alice]
  {
    var ge := Ge("age", IntVal(18));
    var contains := Call("name", ContainsMethod, Some("i"));
    AgeFilterBuilds();
    assert BuildFilteringExpression(NameContainsI) == Success(contains);
    assert BuildAll([AgeAtLeast18]) == Success([ge]) by {
      assert [AgeAtLeast18][..0] == [];
      assert [] + [ge] == [ge];
    }
    assert BuildAll([AgeAtLeast18, NameContainsI]) == Success([ge, contains]) by {
      assert [AgeAtLeast18, NameContainsI][..1] == [AgeAtLeast18];
      assert [ge] + [contains] == [ge, contains];
    }
    var es := [ge, contains];
    assert HoldsAll(es, Alice) by {
      assert Get(Alice, "age") == Some(IntVal(30));
      assert Eval(ge, Alice);
      assert Get(Alice, "name") == Some(StringVal("Alice"));
      assert OccursAt("i", "Alice", 2);
      assert Eval(contains, Alice);
    }
    assert !HoldsAll(es, Bob) by {
      assert Get(Bob, "age") == Some(IntVal(17));
      assert !Eval(es[0], Bob);
    }
    assert Keep([Bob], es) == [] by {
      assert [Bob][1..] == [];
    }
    assert [Alice, Bob][1..] == [Bob];
  }

  /** "age contains 1" is refused for its operation, and "NULL" on a
      non-nullable DateTime property is refused as null. */
  lemma RefusalExamples()
    ensures BuildFilteringExpression(FluentFilterModel(Property("age", Struct(IntKind)), Contains, Some("1")))
            == Failure(OperatorNotAllowed(Contains))
    ensures BuildFilteringExpression(FluentFilterModel(Property("birthDate", Struct(DateTimeKind)), Equal, Some("NULL")))
            == Failure(NullNotAllowed)
  {
  }
}
