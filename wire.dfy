/** The values the Candid decoder hands to the ingesters, and the handful of
    Python operations the ingesters perform on them.

    A Candid `opt T` arrives as a list of zero or one element, a `record` or a
    `variant` as a dict keyed by field or tag name, a `vec` as a list, a tuple
    as a two-element list, a `principal` as an object whose `str()` is its
    textual form. Numbers (`nat64`, `float64`) are opaque tokens here. */
module Wire {
  import opened Base

  /** A decoded number: the text `str()` prints for it, and whether it is zero
      (zero is the only falsy number). */
  datatype Number = Number(text: string, zero: bool)

  datatype Value =
    | Null                                 // Python None
    | Num(n: Number)
    | Text(s: string)
    | Principal(id: string)                // id: the principal's textual form
    | List(items: seq<Value>)
    | Record(fields: map<string, Value>)

  /** The exceptions the ingesters can raise. `Malformed` stands for the
      TypeError, AttributeError or ValueError that Python raises when a value
      does not have the shape its Candid type declares. */
  datatype PyError =
    | Malformed
    | UnexpectedResult          // ValueError: the result holds neither `Ok` nor `Err`
    | NoDataAvailable           // ValueError: a canister returned no data for the date
    | NoMetrics                 // ValueError: nothing to upload
    | HttpError(status: int)    // raised by `raise_for_status`
    | ConnectionFailed          // raised by `requests.post` before any status arrives
    | DateOverflow              // OverflowError: date arithmetic left the years 1 to 9999

  /** Python truthiness. A principal object has no length and is always true. */
  predicate Truthy(v: Value)
    ensures !Truthy(v) <==>
      v == Null || (v.Num? && v.n.zero) || v == Text("") || v == List([]) || v == Record(map[])
  {
    match v
    case Null => false
    case Num(n) => !n.zero
    case Text(s) => s != ""
    case Principal(_) => true
    case List(xs) => xs != []
    case Record(m) => m != map[]
  }

  /** `str(v)` for the scalar values the ingesters render. The decoder never
      puts a list or a dict where the code renders one; the model treats that
      case as `Malformed`. */
  function Str(v: Value): (r: Result<string, PyError>)
    ensures r.Ok? <==> !v.List? && !v.Record?
    ensures v.Principal? ==> r == Ok(v.id)
    ensures v.Num? ==> r == Ok(v.n.text)
  {
    match v
    case Null => Ok("None")
    case Num(n) => Ok(n.text)
    case Text(s) => Ok(s)
    case Principal(id) => Ok(id)
    case List(_) => Err(Malformed)
    case Record(_) => Err(Malformed)
  }

  /** `v.get(key, default)` on a value known to be a dict. */
  function GetOr(v: Value, key: string, default: Value): (r: Value)
    requires v.Record?
    ensures key in v.fields ==> r == v.fields[key]
    ensures r == default || r in v.fields.Values
  {
    if key in v.fields then v.fields[key] else default
  }

  /** `v.get(key, default)`: only a dict has `.get`; on anything else Python
      raises AttributeError. */
  function DictGet(v: Value, key: string, default: Value): (r: Result<Value, PyError>)
    ensures r.Ok? <==> v.Record?
    ensures v.Record? ==> r == Ok(GetOr(v, key, default))
  {
    if v.Record? then Ok(GetOr(v, key, default)) else Err(Malformed)
  }

  /** `len(v)`. */
  function Len(v: Value): (r: Result<nat, PyError>)
    ensures v.List? ==> r == Ok(|v.items|)
    ensures r.Ok? <==> v.List? || v.Record? || v.Text?
  {
    match v
    case List(xs) => Ok(|xs|)
    case Record(m) => Ok(|m|)
    case Text(s) => Ok(|s|)
    case _ => Err(Malformed)
  }

  /** The elements a `for` loop over a decoded `vec` visits. Iterating a dict
      or a string would yield strings, which the loop bodies cannot use (they
      call `.get` on each element or unpack it into a pair), so only an empty
      dict or string gets through. */
  function Elements(v: Value): (r: Result<seq<Value>, PyError>)
    ensures v.List? ==> r == Ok(v.items)
    ensures r.Ok? ==> r.value == [] || v.List?
    ensures r.Ok? <==> v.List? || v == Record(map[]) || v == Text("")
  {
    match v
    case List(xs) => Ok(xs)
    case Record(m) => if m == map[] then Ok([]) else Err(Malformed)
    case Text(s) => if s == "" then Ok([]) else Err(Malformed)
    case _ => Err(Malformed)
  }

  /** `key in v` on a decoded variant or record (a dict). */
  function Has(v: Value, key: string): (r: Result<bool, PyError>)
    ensures r.Ok? <==> v.Record?
    ensures r.Ok? ==> (r.value <==> key in v.fields)
  {
    match v
    case Record(m) => Ok(key in m)
    case _ => Err(Malformed)
  }

  /** `_unwrap_optional`: a list stands for a Candid optional and gives its
      first element, or None when it is empty; any other value is returned as
      it is. A list of two or more elements is not rejected. */
  function UnwrapOptional(v: Value): (r: Value)
    ensures v.List? && |v.items| > 0 ==> r == v.items[0]
    ensures v.List? && |v.items| == 0 ==> r == Null
    ensures !v.List? ==> r == v
  {
    if v.List? then (if |v.items| > 0 then v.items[0] else Null) else v
  }

  /** How the decoder delivers a Candid `opt` value. */
  function Optional(o: Option<Value>): Value
  {
    match o
    case None => List([])
    case Some(x) => List([x])
  }

  /** Unwrapping undoes the decoder's encoding of an optional: present values come
      back as they were, absent ones as None. */
  lemma UnwrapOptionalInverse(o: Option<Value>)
    ensures UnwrapOptional(Optional(o)) == (if o.Some? then o.value else Null)
    ensures o.Some? && o.value != Null ==> Truthy(Optional(o))
  {
  }

  /** Unwrapping is idempotent on everything that is not a list of lists. */
  lemma UnwrapOptionalIdempotent(v: Value)
    requires !(v.List? && |v.items| > 0 && v.items[0].List?)
    ensures UnwrapOptional(UnwrapOptional(v)) == UnwrapOptional(v)
  {
  }
}
