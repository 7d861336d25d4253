/** JSON values as Python's json module hands them to the bot, together with the
    few Python operations the bot applies to them: dict.get, isinstance(_, int),
    truthiness, hashability and str(). */
module Json {

  datatype Option<+T> = None | Some(value: T)

  /** A decoded JSON value. A number with a fraction or an exponent becomes a
      Python float, which the model keeps as the text Python prints for it. */
  datatype Value =
    | Null
    | Bool(b: bool)
    | Int(i: int)
    | Float(text: string)
    | Str(s: string)
    | List(items: seq<Value>)
    | Dict(fields: map<string, Value>)

  /** dict.get(key): the stored value, or None when the key is absent. */
  function Get(fields: map<string, Value>, key: string): Value
  {
    if key in fields then fields[key] else Null
  }

  /** isinstance(v, int). A Python bool is an int, so true and false pass. */
  predicate IsInt(v: Value)
  {
    v.Int? || v.Bool?
  }

  /** Whether v may be looked up in a dict: lists and dicts are unhashable. */
  predicate Hashable(v: Value)
  {
    !(v.List? || v.Dict?)
  }

  /** Python truthiness. The bot tests only environment values (a string or
      None); the other cases complete the definition. repr() prints a float
      zero as 0.0 or -0.0. */
  predicate Truthy(v: Value)
  {
    match v
    case Null => false
    case Bool(b) => b
    case Int(i) => i != 0
    case Float(t) => t != "0.0" && t != "-0.0"
    case Str(s) => s != ""
    case List(items) => items != []
    case Dict(fields) => fields != map[]
  }

  function DigitChar(d: nat): char
    requires d < 10
  {
    "0123456789"[d]
  }

  function DigitValue(c: char): nat
  {
    if '0' <= c <= '9' then (c - '0') as nat else 0
  }

  /** The decimal digits of n, most significant first, without leading zeros. */
  function Digits(n: nat): (r: string)
    ensures 1 <= |r|
    ensures forall k :: 0 <= k < |r| ==> '0' <= r[k] <= '9'
    ensures r[0] == '0' ==> n == 0
    decreases n
  {
    if n < 10 then [DigitChar(n)] else Digits(n / 10) + [DigitChar(n % 10)]
  }

  /** The number a string of decimal digits denotes. */
  function DigitsValue(s: string): nat
  {
    if s == [] then 0 else DigitsValue(s[..|s| - 1]) * 10 + DigitValue(s[|s| - 1])
  }

  /** str() of a Python int. */
  function IntText(i: int): string
  {
    if i < 0 then "-" + Digits(-i) else Digits(i)
  }

  /** The integer a text produced by IntText denotes. */
  function IntTextValue(s: string): int
  {
    if 0 < |s| && s[0] == '-' then -(DigitsValue(s[1..]) as int) else DigitsValue(s)
  }

  lemma {:induction false} DigitsRoundTrip(n: nat)
    ensures DigitsValue(Digits(n)) == n
    decreases n
  {
    if n >= 10 {
      var front := Digits(n / 10);
      var s := front + [DigitChar(n % 10)];
      assert s[..|s| - 1] == front;
      DigitValueOfDigitChar(n % 10);
      DigitsRoundTrip(n / 10);
      assert DigitsValue(s) == (n / 10) * 10 + n % 10;
    } else {
      DigitValueOfDigitChar(n);
    }
  }

  lemma DigitValueOfDigitChar(d: nat)
    requires d < 10
    ensures DigitValue(DigitChar(d)) == d
  {
  }

  /** Reading back str() of an int gives the int: the rendering loses nothing. */
  lemma IntTextRoundTrip(i: int)
    ensures IntTextValue(IntText(i)) == i
  {
    if i < 0 {
      var s := "-" + Digits(-i);
      assert s[0] == '-' && s[1..] == Digits(-i);
      DigitsRoundTrip(-i);
      assert IntTextValue(s) == -(DigitsValue(Digits(-i)) as int);
    } else {
      var s := Digits(i);
      assert s[0] != '-';
      DigitsRoundTrip(i);
      assert IntTextValue(s) == DigitsValue(s);
    }
  }

  /** str(v), as an f-string placeholder prints it. Lists and dicts, which Python
      prints with repr(), are rendered as fixed placeholders. */
  function Render(v: Value): string
  {
    match v
    case Null => "None"
    case Bool(b) => if b then "True" else "False"
    case Int(i) => IntText(i)
    case Float(t) => t
    case Str(s) => s
    case List(_) => "[...]"
    case Dict(_) => "{...}"
  }
}
