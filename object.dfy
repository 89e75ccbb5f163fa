/**
 * Run-time values (object/object.go): a tagged union with a type tag and an
 * `Inspect()` rendering per variant, and the variable environment the
 * evaluator reads and writes.
 *
 * A Go `object.Object` is an interface that may be nil; where a nil object
 * can occur it is `None` of an `Option<Object>`. A `Return` marker may wrap
 * nil (a `return` statement without a value).
 */
module Object {

  import opened Wrappers
  import opened Int64
  import Strconv

  datatype ObjectType = IntegerType | BooleanType | NullType | ReturnType | ErrorType

  datatype Object =
    | Integer(intValue: int64)
    | Boolean(boolValue: bool)
    | Null
    | Return(inner: Option<Object>)
    | Error(message: string)

  /** The tag strings of object/object.go:7-13. */
  function TypeName(t: ObjectType): string {
    match t
    case IntegerType => "INTEGER"
    case BooleanType => "BOOLEAN"
    case NullType => "NULL"
    case ReturnType => "RETURN"
    case ErrorType => "ERROR"
  }

  /** Distinct tags have distinct names. */
  lemma TypeNamesDistinct(t: ObjectType, u: ObjectType)
    ensures TypeName(t) == TypeName(u) <==> t == u
  {
  }

  /** Every variant reports its own tag, and no other variant reports it. */
  function Type(o: Object): (t: ObjectType)
    ensures t == IntegerType <==> o.Integer?
    ensures t == BooleanType <==> o.Boolean?
    ensures t == NullType <==> o.Null?
    ensures t == ReturnType <==> o.Return?
    ensures t == ErrorType <==> o.Error?
  {
    match o
    case Integer(_) => IntegerType
    case Boolean(_) => BooleanType
    case Null => NullType
    case Return(_) => ReturnType
    case Error(_) => ErrorType
  }

  /** An object whose `Inspect` does not dereference nil: a chain of
      `Return` markers must end in a value. */
  predicate Inspectable(o: Object) {
    match o
    case Return(v) => v.Some? && Inspectable(v.value)
    case _ => true
  }

  /** The object under all its `Return` markers. */
  function Unwrapped(o: Object): (r: Object)
    requires Inspectable(o)
    ensures !r.Return?
  {
    if o.Return? then Unwrapped(o.inner.value) else o
  }

  /** Every object renders to some text; a boolean under its markers
      renders as `true` exactly when it holds. */
  function Inspect(o: Object): (r: string)
    requires Inspectable(o)
    ensures |r| > 0
    ensures Unwrapped(o).Boolean? ==> (r == "true" <==> Unwrapped(o).boolValue)
  {
    match o
    case Integer(n) => Strconv.FormatInt(n)
    case Boolean(b) => if b then "true" else "false"
    case Null => "null"
    case Return(v) => Inspect(v.value)
    case Error(msg) => "ERROR: " + msg
  }

  /** A `Return` marker is invisible in the rendering: however many markers
      wrap a value, it renders as the value itself. */
  lemma {:induction false} InspectSeesThroughReturns(o: Object)
    requires Inspectable(o)
    ensures Inspect(o) == Inspect(Unwrapped(o))
  {
    if o.Return? {
      InspectSeesThroughReturns(o.inner.value);
    }
  }

  /** An integer renders in decimal: the rendering of a non-negative integer
      parses back to it, and that of a negative one is a minus sign followed
      by the digits of its magnitude. */
  lemma IntegerInspectDecimal(n: int64)
    ensures var s := Inspect(Integer(n));
      && (n >= 0 ==> Strconv.ParseInt(s) == (n, true))
      && (n < 0 ==> s[0] == '-' && Strconv.AllDigits(s[1..]) && Strconv.DecimalValue(s[1..]) == 0 - n as int)
  {
    if n >= 0 {
      Strconv.FormatParseRoundTrip(n);
    }
  }

  /** A rendering begins with the error prefix exactly when the value under
      its markers is an error: no integer, boolean or null renders like one. */
  lemma ErrorsRenderWithPrefix(o: Object)
    requires Inspectable(o)
    ensures var s := Inspect(o);
      (|s| >= 7 && s[..7] == "ERROR: ") <==> Unwrapped(o).Error?
  {
    InspectSeesThroughReturns(o);
    var u := Unwrapped(o);
    var s := Inspect(u);
    if u.Error? {
      assert s == "ERROR: " + u.message;
      assert s[..7] == "ERROR: ";
    } else if u.Integer? {
      var digits := Strconv.FormatInt(u.intValue);
      assert s == digits && |s| > 0;
      assert s[0] != 'E' by {
        if u.intValue >= 0 {
          assert Strconv.IsDigit(s[0]);
        }
      }
      assert |s| >= 7 ==> s[..7][0] == s[0];
    }
  }

  /**
   * The variable environment. Its Go definition is not part of this model;
   * it is a map from names to objects (possibly nil) where `Set` overwrites
   * and `Get` looks up.
   */
  class Environment {
    var store: map<string, Option<Object>>

    constructor ()
      ensures store == map[]
    {
      store := map[];
    }

    /** The object bound to `name` and whether there is one; `(nil, false)`
        for a name that was never set. */
    method Get(name: string) returns (val: Option<Object>, ok: bool)
      ensures ok <==> name in store
      ensures ok ==> val == store[name]
      ensures !ok ==> val == None
    {
      if name in store {
        return store[name], true;
      }
      return None, false;
    }

    /** Binds `name` to `val`, replacing any earlier binding, and returns `val`. */
    method Set(name: string, val: Option<Object>) returns (r: Option<Object>)
      modifies this
      ensures store == old(store)[name := val] && r == val
    {
      store := store[name := val];
      return val;
    }
  }
}
