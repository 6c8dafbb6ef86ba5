/**
 * Python's `int(...)` applied to a value decoded from JSON, as the websocket
 * handler does with the `interval` field of a subscribe message
 * (server.py:114).  A failed conversion is `None`: in the source it raises.
 */
module Coercion {
  import opened Wrappers

  /** The kinds of JSON value that `int(...)` treats differently. */
  datatype JsonScalar =
    | JInt(i: int)        // a JSON integer
    | JFloat(x: real)     // a JSON number with a fraction or exponent: the exact value of
                          // the finite double `json.loads` makes of it, not of the literal
    | JBool(b: bool)      // `true` / `false` (a subclass of int in Python)
    | JText(s: string)    // a JSON string
    | JOther              // null, a list, an object, NaN, Infinity, or a number literal
                          // such as 1e400 that `json.loads` turns into an infinite float

  /** `int(x)` for a finite float: truncation toward zero. */
  function TruncateTowardZero(x: real): (n: int)
    ensures 0.0 <= x ==> n as real <= x < n as real + 1.0
    ensures x < 0.0 ==> n as real - 1.0 < x <= n as real
  {
    if 0.0 <= x then x.Floor else -((-x).Floor)
  }

  /**
   * The ASCII characters `int(str)` skips around the digits: tab, line feed,
   * vertical tab, form feed, carriage return and space.
   */
  predicate IsSpace(c: char)
  {
    c == ' ' || 9 <= c as int <= 13
  }

  predicate AllSpace(w: string)
  {
    forall i :: 0 <= i < |w| ==> IsSpace(w[i])
  }

  /** The signs `int(str)` accepts before the digits: none, plus or minus. */
  predicate IsSign(sign: string)
  {
    sign == [] || sign == ['+'] || sign == ['-']
  }

  predicate IsDigit(c: char)
  {
    '0' <= c <= '9'
  }

  predicate AllDigits(ds: string)
  {
    forall i :: 0 <= i < |ds| ==> IsDigit(ds[i])
  }

  /** Leading white space removed. */
  function TrimStart(s: string): (r: string)
    ensures |r| <= |s| && r == s[|s| - |r|..]
    ensures r == [] || !IsSpace(r[0])
    ensures forall i :: 0 <= i < |s| - |r| ==> IsSpace(s[i])
  {
    if s != [] && IsSpace(s[0]) then TrimStart(s[1..]) else s
  }

  /** Trailing white space removed. */
  function TrimEnd(s: string): (r: string)
    ensures |r| <= |s| && r == s[..|r|]
    ensures r == [] || !IsSpace(r[|r| - 1])
    ensures forall i :: |r| <= i < |s| ==> IsSpace(s[i])
  {
    if s != [] && IsSpace(s[|s| - 1]) then TrimEnd(s[..|s| - 1]) else s
  }

  /** The value of a string of decimal digits, most significant first. */
  function DigitsValue(ds: string): nat
    requires forall i :: 0 <= i < |ds| ==> IsDigit(ds[i])
  {
    if ds == [] then 0
    else
      assert IsDigit(ds[|ds| - 1]);
      DigitsValue(ds[..|ds| - 1]) * 10 + (ds[|ds| - 1] as int - '0' as int)
  }

  /**
   * CPython's default limit on the digits `int(str)` converts in base 10
   * (`sys.get_int_max_str_digits()`); a longer numeral raises ValueError.
   */
  const MaxStrDigits: nat := 4300

  function Pow10(n: nat): (p: nat)
    ensures p >= 1
  {
    if n == 0 then 1 else 10 * Pow10(n - 1)
  }

  lemma {:induction false} Pow10Monotone(a: nat, b: nat)
    requires a <= b
    ensures Pow10(a) <= Pow10(b)
    decreases b
  {
    if a < b {
      Pow10Monotone(a, b - 1);
    }
  }

  /** n digits denote a number below 10^n. */
  lemma {:induction false} DigitsValueBound(ds: string)
    requires forall i :: 0 <= i < |ds| ==> IsDigit(ds[i])
    ensures DigitsValue(ds) < Pow10(|ds|)
  {
    if ds != [] {
      var init := ds[..|ds| - 1];
      DigitsValueBound(init);
      assert IsDigit(ds[|ds| - 1]);
      assert DigitsValue(init) * 10 <= (Pow10(|init|) - 1) * 10;
    }
  }

  lemma MagnitudeBound(ds: string)
    requires forall i :: 0 <= i < |ds| ==> IsDigit(ds[i])
    requires |ds| <= MaxStrDigits
    ensures DigitsValue(ds) < Pow10(MaxStrDigits)
  {
    DigitsValueBound(ds);
    Pow10Monotone(|ds|, MaxStrDigits);
  }

  /**
   * The digits that follow the sign: one to `MaxStrDigits` ASCII digits, and
   * the value they spell, negated after a minus sign.
   */
  function ParseDigits(negative: bool, body: string): (r: Option<int>)
    ensures r.Some? ==> (if r.value < 0 then -r.value else r.value) < Pow10(MaxStrDigits)
  {
    if body == [] || !AllDigits(body) || |body| > MaxStrDigits then None
    else
      MagnitudeBound(body);
      var magnitude: int := DigitsValue(body);
      Some(if negative then -magnitude else magnitude)
  }

  /** A trimmed string: an optional sign, then the digits. */
  function ParseSigned(t: string): (r: Option<int>)
    ensures r.Some? ==> (if r.value < 0 then -r.value else r.value) < Pow10(MaxStrDigits)
  {
    if t != [] && (t[0] == '-' || t[0] == '+') then ParseDigits(t[0] == '-', t[1..])
    else ParseDigits(false, t)
  }

  /**
   * `int(s)` for a string in base 10: optional white space, an optional sign,
   * one to `MaxStrDigits` ASCII digits, optional white space.  Whatever it
   * accepts therefore lies strictly between -10^4300 and 10^4300.
   */
  function ParseInt(s: string): (r: Option<int>)
    ensures r.Some? ==> (if r.value < 0 then -r.value else r.value) < Pow10(MaxStrDigits)
  {
    ParseSigned(TrimEnd(TrimStart(s)))
  }

  /** The conversion `int(v)`; `None` where Python raises ValueError or TypeError. */
  function IntOf(v: JsonScalar): (r: Option<int>)
    ensures v.JInt? ==> r == Some(v.i)
    ensures v.JOther? ==> r == None
    ensures v.JBool? ==> r == Some(if v.b then 1 else 0)
    ensures v.JFloat? && 0.0 <= v.x ==> r.Some? && r.value as real <= v.x < r.value as real + 1.0
    ensures v.JFloat? && v.x < 0.0 ==> r.Some? && r.value as real - 1.0 < v.x <= r.value as real
  {
    match v
    case JInt(i) => Some(i)
    case JFloat(x) => Some(TruncateTowardZero(x))
    case JBool(b) => Some(if b then 1 else 0)
    case JText(s) => ParseInt(s)
    case JOther => None
  }

  /** Decimal rendering of a natural number (the reference for ParseInt). */
  function Decimal(n: nat): (s: string)
    ensures s != [] && forall i :: 0 <= i < |s| ==> IsDigit(s[i])
  {
    var last := ['0' + (n % 10) as char];
    if n < 10 then last else Decimal(n / 10) + last
  }

  /** Decimal rendering of an integer, with a leading minus when negative. */
  function Show(i: int): string
  {
    if i < 0 then ['-'] + Decimal(-i) else Decimal(i)
  }

  lemma {:induction false} DecimalValue(n: nat)
    ensures DigitsValue(Decimal(n)) == n
  {
    var s := Decimal(n);
    if n >= 10 {
      DecimalValue(n / 10);
      assert s[..|s| - 1] == Decimal(n / 10);
    }
  }

  lemma {:induction false} TrimStartSpace(pre: string, w: string)
    requires AllSpace(pre) && w != [] && !IsSpace(w[0])
    ensures TrimStart(pre + w) == w
    decreases |pre|
  {
    if pre == [] {
      assert pre + w == w;
    } else {
      assert (pre + w)[0] == pre[0];
      assert (pre + w)[1..] == pre[1..] + w;
      TrimStartSpace(pre[1..], w);
    }
  }

  lemma {:induction false} TrimEndSpace(w: string, post: string)
    requires AllSpace(post) && w != [] && !IsSpace(w[|w| - 1])
    ensures TrimEnd(w + post) == w
    decreases |post|
  {
    if post == [] {
      assert w + post == w;
    } else {
      var shorter := post[..|post| - 1];
      assert (w + post)[|w + post| - 1] == post[|post| - 1];
      assert (w + post)[..|w + post| - 1] == w + shorter;
      TrimEndSpace(w, shorter);
    }
  }

  lemma Regroup<T>(a: seq<T>, b: seq<T>, c: seq<T>, d: seq<T>)
    ensures a + b + c + d == a + ((b + c) + d)
  {
  }

  lemma Unpadded<T>(a: seq<T>, b: seq<T>)
    ensures [] + a + b + [] == a + b
  {
  }

  /** A sign followed by digits: the sign is stripped and decides the result's sign. */
  lemma ParseSignedDigits(sign: string, ds: string)
    requires IsSign(sign) && ds != [] && AllDigits(ds)
    ensures ParseSigned(sign + ds) == ParseDigits(sign == ['-'], ds)
  {
    assert IsDigit(ds[0]);
    if sign == [] {
      assert sign + ds == ds;
    } else {
      assert (sign + ds)[0] == sign[0] && (sign + ds)[1..] == ds;
    }
  }

  /** Trimming white space around a signed numeral leaves the signed numeral. */
  lemma TrimmedCore(pre: string, sign: string, ds: string, post: string)
    requires AllSpace(pre) && IsSign(sign) && ds != [] && AllDigits(ds) && AllSpace(post)
    ensures TrimEnd(TrimStart(pre + sign + ds + post)) == sign + ds
  {
    var core := sign + ds;
    CoreEnds(sign, ds);
    assert !IsSpace((core + post)[0]);
    TrimStartSpace(pre, core + post);
    TrimEndSpace(core, post);
    Regroup(pre, sign, ds, post);
  }

  /** A signed numeral neither starts nor ends with white space. */
  lemma CoreEnds(sign: string, ds: string)
    requires IsSign(sign) && ds != [] && AllDigits(ds)
    ensures var core := sign + ds; core != [] && !IsSpace(core[0]) && !IsSpace(core[|core| - 1])
  {
    var core := sign + ds;
    assert IsDigit(ds[0]) && IsDigit(ds[|ds| - 1]);
    assert core[0] == if sign == [] then ds[0] else sign[0];
    assert core[|core| - 1] == ds[|ds| - 1];
  }

  /**
   * Every string of the accepted shape converts: white space, an optional
   * sign, digits and white space give the digits' value, negated after a
   * minus, exactly when there are at most `MaxStrDigits` digits.
   */
  lemma ParseSurrounded(pre: string, sign: string, ds: string, post: string)
    requires AllSpace(pre) && IsSign(sign) && ds != [] && AllDigits(ds) && AllSpace(post)
    ensures var magnitude: int := DigitsValue(ds);
      ParseInt(pre + sign + ds + post)
        == if |ds| <= MaxStrDigits then Some(if sign == ['-'] then -magnitude else magnitude) else None
  {
    TrimmedCore(pre, sign, ds, post);
    ParseSignedDigits(sign, ds);
    ParseDigitsValue(sign == ['-'], ds);
  }

  /** Conversely, every string `int(str)` accepts has that shape. */
  lemma ParseAcceptedForm(s: string)
    requires ParseInt(s).Some?
    ensures exists pre, sign, ds, post :: (s == pre + sign + ds + post
      && AllSpace(pre) && IsSign(sign) && ds != [] && AllDigits(ds) && |ds| <= MaxStrDigits
      && AllSpace(post))
  {
    var u := TrimStart(s);
    var t := TrimEnd(u);
    var pre, post := s[..|s| - |u|], u[|t|..];
    TrimSplit(s);
    var sign, ds := SignSplit(t);
    Regroup(pre, sign, ds, post);
  }

  /** A string is its leading white space, its trimmed core and its trailing white space. */
  lemma TrimSplit(s: string)
    ensures var u := TrimStart(s); var t := TrimEnd(u);
      s == s[..|s| - |u|] + (t + u[|t|..]) && AllSpace(s[..|s| - |u|]) && AllSpace(u[|t|..])
  {
    LeadingSpace(s);
    TrailingSpace(TrimStart(s));
  }

  lemma LeadingSpace(s: string)
    ensures var u := TrimStart(s); s == s[..|s| - |u|] + u && AllSpace(s[..|s| - |u|])
  {
    var u := TrimStart(s);
    assert s == s[..|s| - |u|] + u;
  }

  lemma TrailingSpace(u: string)
    ensures var t := TrimEnd(u); u == t + u[|t|..] && AllSpace(u[|t|..])
  {
    var t := TrimEnd(u);
    var post := u[|t|..];
    assert u == t + post;
    forall i | 0 <= i < |post| ensures IsSpace(post[i]) {
      assert post[i] == u[|t| + i];
    }
  }

  /** A trimmed string `int(str)` accepts is a sign followed by digits. */
  lemma SignSplit(t: string) returns (sign: string, ds: string)
    requires ParseSigned(t).Some?
    ensures t == sign + ds && IsSign(sign) && ds != [] && AllDigits(ds) && |ds| <= MaxStrDigits
  {
    if t != [] && (t[0] == '-' || t[0] == '+') {
      sign, ds := t[..1], t[1..];
    } else {
      sign, ds := [], t;
    }
  }

  /** A numeral without white space: an optional minus sign and digits. */
  lemma ParseNumeral(negative: bool, ds: string)
    requires ds != [] && forall i :: 0 <= i < |ds| ==> IsDigit(ds[i])
    ensures var s := if negative then ['-'] + ds else ds;
      var magnitude: int := DigitsValue(ds);
      ParseInt(s) == if |ds| <= MaxStrDigits then Some(if negative then -magnitude else magnitude) else None
  {
    var sign: string := if negative then ['-'] else [];
    ParseSurrounded([], sign, ds, []);
    Unpadded(sign, ds);
    assert sign + ds == if negative then ['-'] + ds else ds by {
      if !negative {
        assert sign + ds == ds;
      }
    }
  }

  lemma ParseDigitsValue(negative: bool, ds: string)
    requires ds != [] && AllDigits(ds)
    ensures var magnitude: int := DigitsValue(ds);
      ParseDigits(negative, ds) == if |ds| <= MaxStrDigits then Some(if negative then -magnitude else magnitude) else None
  {
  }

  /** `int(...)` reads back every integer from its decimal rendering, up to the digit limit. */
  lemma ParseShow(i: int)
    requires |Decimal(if i < 0 then -i else i)| <= MaxStrDigits
    ensures ParseInt(Show(i)) == Some(i)
    ensures IntOf(JText(Show(i))) == Some(i)
  {
    var n: nat := if i < 0 then -i else i;
    DecimalValue(n);
    ParseNumeral(i < 0, Decimal(n));
  }

  /** Beyond the digit limit `int(...)` raises, even on a well-formed numeral. */
  lemma ParseShowTooLong(i: int)
    requires |Decimal(if i < 0 then -i else i)| > MaxStrDigits
    ensures ParseInt(Show(i)) == None
    ensures IntOf(JText(Show(i))) == None
  {
    var n: nat := if i < 0 then -i else i;
    ParseNumeral(i < 0, Decimal(n));
  }
}
