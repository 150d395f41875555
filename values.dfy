/** JavaScript values as the scheduler sees them in a schedule's configuration:
    only their truthiness and their string conversion matter. */
module Values {

  datatype Option<+T> = None | Some(value: T)

  /** Magnitude from which JavaScript's String(n) switches to exponent form. */
  const ExponentFrom: int := 1_000_000_000_000_000_000_000

  /** The integers String(n) writes out in plain decimal digits. */
  type PlainInt = n: int | -ExponentFrom < n < ExponentFrom

  /** A primitive JavaScript value. Numbers are limited to integers that
      print without an exponent. */
  datatype JsValue = Undefined | Null | Bool(b: bool) | Num(n: PlainInt) | Str(s: string)

  /** JavaScript truthiness: `undefined`, `null`, `false`, `0` and `''` are falsy. */
  predicate Truthy(v: JsValue)
    ensures Truthy(v) <==> !(v == Undefined || v == Null || v == Bool(false) || v == Num(0) || v == Str(""))
  {
    match v
    case Undefined => false
    case Null => false
    case Bool(b) => b
    case Num(n) => n != 0
    case Str(s) => s != ""
  }

  /** Decimal digits of a natural number, most significant first. */
  function NatText(n: nat): (r: string)
    ensures |r| > 0
    ensures forall c <- r :: '0' <= c <= '9'
    decreases n
  {
    var digit := (48 + n % 10) as char;
    if n < 10 then [digit] else NatText(n / 10) + [digit]
  }

  /** JavaScript's String(v), as used by template literals and property keys. */
  function ToText(v: JsValue): (r: string)
    ensures v.Str? ==> r == v.s
    ensures Truthy(v) && !v.Str? ==> r != ""
    ensures v.Num? ==> forall c <- r :: c == '-' || '0' <= c <= '9'
    ensures v.Num? ==> |r| > 0 && (v.n < 0 <==> r[0] == '-')
  {
    match v
    case Undefined => "undefined"
    case Null => "null"
    case Bool(b) => if b then "true" else "false"
    case Num(n) =>
      if n < 0 then "-" + NatText(-n)
      else
        var d := NatText(n);
        assert d[0] in d;
        d
    case Str(s) => s
  }
}
