/** The predicates the filtering service builds, their meaning over a record,
    and the `Where` step that keeps the records a predicate accepts. Records
    stand for the entities of a query; a predicate stands for the body of the
    lambda `x => ...` the service hands to `Queryable.Where`. */
module Expressions {
  import opened Wrappers

  /** A non-null property value. */
  datatype Scalar =
    | EnumVal(index: nat)        // an enumeration member, by its position
    | StringVal(s: string)
    | BoolVal(b: bool)
    | IntVal(i: int)
    | DoubleVal(d: real)
    | DateTimeVal(ticks: int)

  /** A record: property names mapped to values, `None` standing for null. */
  type Record = map<string, Option<Scalar>>

  /** The value of property `name` of `r`; a property the map lacks reads as null. */
  function Get(r: Record, name: string): Option<Scalar> {
    if name in r then r[name] else None
  }

  /** The numeric and chronological order; values of different kinds are unordered. */
  predicate Less(a: Scalar, b: Scalar) {
    match (a, b)
    case (IntVal(x), IntVal(y)) => x < y
    case (DoubleVal(x), DoubleVal(y)) => x < y
    case (DateTimeVal(x), DateTimeVal(y)) => x < y
    case _ => false
  }

  /** The `string` instance methods a predicate may call. */
  datatype StringMethod = ContainsMethod | StartsWithMethod | EndsWithMethod

  /** The predicate over one record: a property compared with a constant
      (`Expression.Equal`, `GreaterThan`, `LessThan`, `GreaterThanOrEqual`,
      `LessThanOrEqual`) or a string method called on the property with a
      constant argument (`Expression.Call`). A null constant in `Eq` is the
      test "property is null". */
  datatype Expr =
    | Eq(member: string, constant: Option<Scalar>)
    | Gt(member: string, bound: Scalar)
    | Lt(member: string, bound: Scalar)
    | Ge(member: string, bound: Scalar)
    | Le(member: string, bound: Scalar)
    | Call(member: string, callee: StringMethod, argument: Option<string>)

  /** `a` occurs in `s` starting at position `k`. */
  predicate OccursAt(a: string, s: string, k: nat) {
    k + |a| <= |s| && s[k..k + |a|] == a
  }

  predicate IsSubstring(a: string, s: string) {
    exists k: nat | k <= |s| :: OccursAt(a, s, k)
  }

  predicate IsPrefix(a: string, s: string) {
    |a| <= |s| && s[..|a|] == a
  }

  predicate IsSuffix(a: string, s: string) {
    |a| <= |s| && s[|s| - |a|..] == a
  }

  /** Whether record `r` satisfies `e`. Equality is lifted: null equals null
      and nothing else. An ordering test on a null property is false. A string
      method on a null property, or with a null argument, is taken to be false
      (the outcome of such a call is not decided by the service). */
  predicate Eval(e: Expr, r: Record) {
    match e
    case Eq(m, c) => Get(r, m) == c
    case Gt(m, c) => Get(r, m).Some? && Less(c, Get(r, m).value)
    case Lt(m, c) => Get(r, m).Some? && Less(Get(r, m).value, c)
    case Ge(m, c) => Get(r, m).Some? && (Less(c, Get(r, m).value) || Get(r, m).value == c)
    case Le(m, c) => Get(r, m).Some? && (Less(Get(r, m).value, c) || Get(r, m).value == c)
    case Call(m, f, a) =>
      match (Get(r, m), a)
      case (Some(StringVal(s)), Some(x)) =>
        (match f
         case ContainsMethod => IsSubstring(x, s)
         case StartsWithMethod => IsPrefix(x, s)
         case EndsWithMethod => IsSuffix(x, s))
      case _ => false
  }

  /** `Queryable.Where`: the records of `q` that satisfy `e`, in their order. */
  function Where(q: seq<Record>, e: Expr): (res: seq<Record>)
    ensures |res| <= |q|
    ensures forall x :: x in res <==> x in q && Eval(e, x)
    ensures forall x :: multiset(res)[x] == if Eval(e, x) then multiset(q)[x] else 0
  {
    if q == [] then []
    else
      assert q == [q[0]] + q[1..];
      (if Eval(e, q[0]) then [q[0]] else []) + Where(q[1..], e)
  }

  /** Whether `x` satisfies every predicate of `es`. */
  predicate HoldsAll(es: seq<Expr>, x: Record) {
    forall i | 0 <= i < |es| :: Eval(es[i], x)
  }

  /** The records of `q` that satisfy every predicate of `es`, in their order:
      the meaning of a query filtered by the conjunction of `es`. */
  function Keep(q: seq<Record>, es: seq<Expr>): seq<Record> {
    if q == [] then []
    else (if HoldsAll(es, q[0]) then [q[0]] else []) + Keep(q[1..], es)
  }

  /** A record is kept exactly when it is in the query and satisfies every predicate. */
  lemma {:induction false} KeepMembers(q: seq<Record>, es: seq<Expr>, x: Record)
    ensures x in Keep(q, es) <==> x in q && HoldsAll(es, x)
  {
    if q != [] {
      KeepMembers(q[1..], es, x);
      assert q == [q[0]] + q[1..];
    }
  }

  /** Filtering never adds records. */
  lemma {:induction false} KeepShrinks(q: seq<Record>, es: seq<Expr>)
    ensures |Keep(q, es)| <= |q|
  {
    if q != [] {
      KeepShrinks(q[1..], es);
    }
  }

  /** With no predicates the query is returned as it is. */
  lemma {:induction false} KeepNothing(q: seq<Record>)
    ensures Keep(q, []) == q
  {
    if q != [] {
      KeepNothing(q[1..]);
      assert q == [q[0]] + q[1..];
    }
  }

  /** One more `Where` on a filtered query adds its predicate to the conjunction. */
  lemma {:induction false} WhereAfterKeep(q: seq<Record>, es: seq<Expr>, e: Expr)
    ensures Where(Keep(q, es), e) == Keep(q, es + [e])
  {
    if q != [] {
      WhereAfterKeep(q[1..], es, e);
      var x := q[0];
      assert HoldsAll(es + [e], x) <==> HoldsAll(es, x) && Eval(e, x) by {
        if HoldsAll(es, x) && Eval(e, x) {
          forall i | 0 <= i < |es + [e]| ensures Eval((es + [e])[i], x) {
            if i < |es| { assert (es + [e])[i] == es[i]; }
          }
        }
        if HoldsAll(es + [e], x) {
          forall i | 0 <= i < |es| ensures Eval(es[i], x) {
            assert (es + [e])[i] == es[i];
          }
          assert (es + [e])[|es|] == e;
        }
      }
      var rest := Keep(q[1..], es);
      if HoldsAll(es, x) {
        assert Keep(q, es) == [x] + rest;
        assert ([x] + rest)[1..] == rest;
      } else {
        assert Keep(q, es) == rest;
      }
    }
  }

  /** Which records are kept depends only on the set of predicates, not on
      their order or repetitions. */
  lemma {:induction false} KeepSamePredicates(q: seq<Record>, es: seq<Expr>, fs: seq<Expr>)
    requires forall e :: e in es <==> e in fs
    ensures Keep(q, es) == Keep(q, fs)
  {
    if q != [] {
      KeepSamePredicates(q[1..], es, fs);
      var x := q[0];
      if HoldsAll(es, x) {
        forall i | 0 <= i < |fs| ensures Eval(fs[i], x) {
          assert fs[i] in fs;
          var j :| 0 <= j < |es| && es[j] == fs[i];
        }
      }
      if HoldsAll(fs, x) {
        forall i | 0 <= i < |es| ensures Eval(es[i], x) {
          assert es[i] in es;
          var j :| 0 <= j < |fs| && fs[j] == es[i];
        }
      }
    }
  }

  /** In particular, swapping two blocks of predicates keeps the same records. */
  lemma KeepOrderIrrelevant(q: seq<Record>, es: seq<Expr>, fs: seq<Expr>)
    ensures Keep(q, es + fs) == Keep(q, fs + es)
  {
    KeepSamePredicates(q, es + fs, fs + es);
  }

  lemma HoldsAllAppend(es: seq<Expr>, fs: seq<Expr>, x: Record)
    ensures HoldsAll(es + fs, x) <==> HoldsAll(es, x) && HoldsAll(fs, x)
  {
    if HoldsAll(es, x) && HoldsAll(fs, x) {
      forall i | 0 <= i < |es + fs| ensures Eval((es + fs)[i], x) {
        if i < |es| { assert (es + fs)[i] == es[i]; } else { assert (es + fs)[i] == fs[i - |es|]; }
      }
    }
    if HoldsAll(es + fs, x) {
      forall i | 0 <= i < |es| ensures Eval(es[i], x) { assert (es + fs)[i] == es[i]; }
      forall i | 0 <= i < |fs| ensures Eval(fs[i], x) { assert (es + fs)[|es| + i] == fs[i]; }
    }
  }
}
