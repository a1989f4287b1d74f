/** The slice of Python the /feedback handler relies on: JSON values as
    `json`/Flask decode them, the exceptions the handler can meet, and the
    operations it applies to decoded values (`in`, `[...]`, truthiness,
    `dict.get`, `str.strip`). */
module Python {
  import Text
  import Decimal

  /** A decoded JSON value. Numbers are integers only. */
  datatype Json =
    | Null
    | Bool(b: bool)
    | Number(n: int)
    | Str(s: string)
    | Array(items: seq<Json>)
    | Object(fields: map<string, Json>)

  /** A subscript: `x["name"]` or `x[i]`. */
  datatype Key = Name(name: string) | Position(index: int)

  /** The exceptions that reach the handler's catch-all. */
  datatype Exception =
    | AttributeError(typeName: string, attribute: string)
    | KeyError(key: Key)
    | IndexError(typeName: string)
    | TypeError(message: string)
    | RequestBodyError(message: string) // Flask could not read the request body as JSON (BadRequest or UnsupportedMediaType)
    | DecodeError(message: string)      // the provider's body is not JSON
    | TransportError(message: string)   // the HTTP call itself failed

  /** A Python expression either evaluates to a value or raises. */
  datatype Result<+T> = Return(value: T) | Raise(error: Exception) {
    predicate IsFailure() { Raise? }
    function PropagateFailure<U>(): Result<U> requires Raise? { Raise(error) }
    function Extract(): T requires Return? { value }
  }

  /** `type(x).__name__` of the Python object a JSON value decodes to. */
  function TypeName(j: Json): string {
    match j
    case Null => "NoneType"
    case Bool(_) => "bool"
    case Number(_) => "int"
    case Str(_) => "str"
    case Array(_) => "list"
    case Object(_) => "dict"
  }

  /** `str(e)`: the text the handler puts in its "error" field. An exception
      that carries a message shows it unchanged; an AttributeError ends with the
      quoted attribute name; a KeyError shows its key, quoted when it is a
      string, as a number that reads back otherwise. */
  function Message(e: Exception): (r: string)
    ensures e.TypeError? || e.RequestBodyError? || e.DecodeError? || e.TransportError? ==> r == e.message
    ensures e.AttributeError? ==>
      && |r| >= |e.attribute| + 2 && r[0] == '\''
      && r[|r| - 1 - |e.attribute|..] == e.attribute + "'"
    ensures e.KeyError? && e.key.Name? ==> r == "'" + e.key.name + "'"
    ensures e.KeyError? && e.key.Position? ==>
      Decimal.ParseableInt(r) && Decimal.ParseInt(r) == e.key.index
    ensures e.IndexError? ==> |r| >= 19 && r[|r| - 19..] == " index out of range"
  {
    match e
    case AttributeError(t, a) =>
      var r := "'" + t + "' object has no attribute '" + a + "'";
      assert r[|r| - 1 - |a|..] == a + "'";
      r
    case KeyError(Name(n)) => "'" + n + "'"
    case KeyError(Position(i)) =>
      Decimal.IntTextRoundTrip(i);
      Decimal.IntText(i)
    case IndexError(t) =>
      var r := (if t == "str" then "string" else t) + " index out of range";
      assert r[|r| - 19..] == " index out of range";
      r
    case TypeError(m) => m
    case RequestBodyError(m) => m
    case DecodeError(m) => m
    case TransportError(m) => m
  }

  /** `bool(x)`: false exactly for None, False, 0 and empty containers. */
  predicate Truthy(j: Json)
    ensures Truthy(j) <==> j !in {Null, Bool(false), Number(0), Str([]), Array([]), Object(map[])}
  {
    match j
    case Null => false
    case Bool(b) => b
    case Number(n) => n != 0
    case Str(s) => s != []
    case Array(xs) => xs != []
    case Object(m) => m != map[]
  }

  /** `needle` occurs in `s` as a substring. */
  predicate IsInfix(needle: string, s: string) {
    needle <= s || (s != [] && IsInfix(needle, s[1..]))
  }

  /** The recursive search agrees with the definition of a substring: some
      offset of `s` holds `needle`. */
  lemma {:induction false} IsInfixIff(needle: string, s: string)
    ensures IsInfix(needle, s) <==> exists i: nat :: Text.OccursAt(needle, s, i)
  {
    if needle <= s {
      assert Text.OccursAt(needle, s, 0);
    } else if s != [] {
      IsInfixIff(needle, s[1..]);
      if IsInfix(needle, s[1..]) {
        var i: nat :| Text.OccursAt(needle, s[1..], i);
        assert s[1..][i..i + |needle|] == s[i + 1..i + 1 + |needle|];
        assert Text.OccursAt(needle, s, i + 1);
      }
      if exists i: nat :: Text.OccursAt(needle, s, i) {
        var i: nat :| Text.OccursAt(needle, s, i);
        assert i != 0;
        assert s[1..][i - 1..i - 1 + |needle|] == s[i..i + |needle|];
        assert Text.OccursAt(needle, s[1..], i - 1);
      }
    }
  }

  /** `needle in x` for a string `needle`: a key of a dict, an element of a
      list, a substring of a str; any other value raises TypeError. */
  function Contains(j: Json, needle: string): (r: Result<bool>)
    ensures r.Return? <==> j.Object? || j.Array? || j.Str?
    ensures j.Object? ==> r == Return(needle in j.fields)
    ensures j.Array? ==> r == Return(Str(needle) in j.items)
    ensures j.Str? ==> r == Return(IsInfix(needle, j.s))
    ensures r.Raise? ==> r.error.TypeError?
  {
    match j
    case Object(m) => Return(needle in m)
    case Array(xs) => Return(Str(needle) in xs)
    case Str(s) => Return(IsInfix(needle, s))
    case _ => Raise(TypeError("argument of type '" + TypeName(j) + "' is not iterable"))
  }

  /** Python's index normalisation: `-len <= i < len` selects `i mod len`. */
  function Normalise(i: int, len: nat): (k: int)
    ensures 0 <= i + len && i < len ==> 0 <= k < len
    ensures 0 <= i ==> k == i
  {
    if i < 0 then len + i else i
  }

  /** `x[k]`. A dict raises KeyError for a missing key (and always for an
      integer, since JSON keys are strings); a list or str raises IndexError out
      of range and TypeError for a string subscript; other values are not
      subscriptable. */
  function Subscript(j: Json, k: Key): (r: Result<Json>)
    ensures j.Object? ==> (r.Return? <==> k.Name? && k.name in j.fields)
    ensures j.Object? && r.Return? ==> r.value == j.fields[k.name]
    ensures j.Object? && r.Raise? ==> r.error == KeyError(k)
    ensures j.Array? ==> (r.Return? <==> k.Position? && -|j.items| <= k.index < |j.items|)
    ensures j.Array? && r.Return? && k.index >= 0 ==> r.value == j.items[k.index]
    ensures j.Array? && r.Return? && k.index < 0 ==> r.value == j.items[|j.items| + k.index]
    ensures j.Str? ==> (r.Return? <==> k.Position? && -|j.s| <= k.index < |j.s|)
    ensures j.Str? && r.Return? ==> r.value == Str([j.s[Normalise(k.index, |j.s|)]])
    ensures (j.Array? || j.Str?) && r.Raise? ==> (r.error.TypeError? <==> k.Name?)
    ensures (j.Array? || j.Str?) && r.Raise? ==> (r.error.IndexError? <==> k.Position?)
    ensures j.Null? || j.Bool? || j.Number? ==> r.Raise? && r.error.TypeError?
  {
    match j
    case Object(m) =>
      if k.Name? && k.name in m then Return(m[k.name]) else Raise(KeyError(k))
    case Array(xs) =>
      if k.Name? then Raise(TypeError("list indices must be integers or slices, not str"))
      else if -|xs| <= k.index < |xs| then Return(xs[Normalise(k.index, |xs|)])
      else Raise(IndexError("list"))
    case Str(s) =>
      if k.Name? then Raise(TypeError("string indices must be integers, not 'str'"))
      else if -|s| <= k.index < |s| then Return(Str([s[Normalise(k.index, |s|)]]))
      else Raise(IndexError("str"))
    case _ =>
      Raise(TypeError("'" + TypeName(j) + "' object is not subscriptable"))
  }

  /** `x.get(key, default)`: only a dict has `get`. */
  function Get(j: Json, key: string, default: Json): (r: Result<Json>)
    ensures r.Return? <==> j.Object?
    ensures j.Object? && key in j.fields ==> r.value == j.fields[key]
    ensures j.Object? && key !in j.fields ==> r.value == default
    ensures r.Raise? ==> r.error == AttributeError(TypeName(j), "get")
  {
    match j
    case Object(m) => Return(if key in m then m[key] else default)
    case _ => Raise(AttributeError(TypeName(j), "get"))
  }

  /** `x.strip()`: only a str has `strip`. */
  function StripValue(j: Json): (r: Result<string>)
    ensures r.Return? <==> j.Str?
    ensures r.Return? ==> r.value == Text.Strip(j.s) && (r.value == [] <==> Text.AllSpace(j.s))
    ensures r.Raise? ==> r.error == AttributeError(TypeName(j), "strip")
  {
    match j
    case Str(s) => Return(Text.Strip(s))
    case _ => Raise(AttributeError(TypeName(j), "strip"))
  }
}
