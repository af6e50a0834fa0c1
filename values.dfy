/** Answer values as the browser keeps them, and the JavaScript conversions
    that validation and the review list apply to them: `String(v)`,
    `String.prototype.trim`, truthiness and `Array.prototype.join`. */
module Values {

  datatype Option<+T> = None | Some(value: T)

  /** A stored answer: text from a text box, select or pill, a number from a
      range slider, or the list of option values a multi-select yields. */
  datatype Value = Str(s: string) | Num(n: int) | List(items: seq<string>)

  /** The answer store: field name to stored answer. */
  type Store = map<string, Value>

  /** `state[name]`, with `undefined` as None. */
  function Lookup(store: Store, name: string): Option<Value> {
    if name in store then Some(store[name]) else None
  }

  /** The characters `trim` strips: ECMAScript WhiteSpace and LineTerminator. */
  predicate IsJsSpace(c: char) {
    || c == '\t' || c == '\n' || c == '\U{000B}' || c == '\U{000C}' || c == '\r'
    || c == ' ' || c == '\U{00A0}' || c == '\U{1680}'
    || ('\U{2000}' <= c <= '\U{200A}')
    || c == '\U{2028}' || c == '\U{2029}' || c == '\U{202F}' || c == '\U{205F}'
    || c == '\U{3000}' || c == '\U{FEFF}'
  }

  /** Every character of `s` is one `trim` would strip. */
  predicate Blank(s: string) {
    forall i :: 0 <= i < |s| ==> IsJsSpace(s[i])
  }

  /** Strips leading whitespace; what is left is a suffix of `s`. */
  function TrimStart(s: string): (r: string)
    ensures |r| <= |s| && r == s[|s| - |r|..]
    ensures r == [] || !IsJsSpace(r[0])
    ensures forall i :: 0 <= i < |s| - |r| ==> IsJsSpace(s[i])
  {
    if s != [] && IsJsSpace(s[0]) then
      var r := TrimStart(s[1..]);
      assert s[1..][|s| - 1 - |r|..] == s[|s| - |r|..];
      assert forall i :: 1 <= i < |s| - |r| ==> s[1..][i - 1] == s[i];
      r
    else s
  }

  /** Strips trailing whitespace; what is left is a prefix of `s`. */
  function TrimEnd(s: string): (r: string)
    ensures |r| <= |s| && r == s[..|r|]
    ensures r == [] || !IsJsSpace(r[|r| - 1])
    ensures forall i :: |r| <= i < |s| ==> IsJsSpace(s[i])
  {
    if s != [] && IsJsSpace(s[|s| - 1]) then
      var r := TrimEnd(s[..|s| - 1]);
      assert s[..|s| - 1][..|r|] == s[..|r|];
      r
    else s
  }

  /** `s.trim()`. */
  function Trim(s: string): string {
    TrimEnd(TrimStart(s))
  }

  /** Trimming leaves nothing exactly when the text is all whitespace. */
  lemma TrimEmptyIffBlank(s: string)
    ensures Trim(s) == [] <==> Blank(s)
  {
    var t := TrimStart(s);
    if Trim(s) != [] {
      var r := Trim(s);
      assert r[0] == t[0];
      assert t[0] == s[|s| - |t|];
    }
  }

  /** The test `s.trim() === ''`. */
  function TrimsToEmpty(s: string): (e: bool)
    ensures e <==> Blank(s)
  {
    TrimEmptyIffBlank(s);
    Trim(s) == []
  }

  /** JavaScript truthiness of a stored entry (`undefined` when absent). */
  predicate Truthy(v: Option<Value>) {
    match v
    case None => false
    case Some(Str(s)) => s != []
    case Some(Num(n)) => n != 0
    case Some(List(_)) => true
  }

  function DigitChar(d: nat): char
    requires d < 10
  {
    ['0', '1', '2', '3', '4', '5', '6', '7', '8', '9'][d]
  }

  predicate IsDigit(c: char) {
    '0' <= c <= '9'
  }

  /** The decimal numeral of a natural number, as `String(n)` writes it. */
  function NatText(n: nat): (s: string)
    ensures |s| >= 1
    ensures forall i :: 0 <= i < |s| ==> IsDigit(s[i])
  {
    if n < 10 then [DigitChar(n)] else NatText(n / 10) + [DigitChar(n % 10)]
  }

  /** `String(n)` for an integer: a minus sign before the numeral of |n|. */
  function IntText(n: int): string {
    if n < 0 then "-" + NatText(-n) else NatText(n)
  }

  /** Reads a numeral back: the inverse of NatText. */
  function ParseNat(s: string): nat
    requires forall i :: 0 <= i < |s| ==> IsDigit(s[i])
  {
    if s == [] then 0
    else
      assert IsDigit(s[|s| - 1]);
      ParseNat(s[..|s| - 1]) * 10 + (s[|s| - 1] as int - '0' as int)
  }

  /** The numeral of a number reads back as that number. */
  lemma {:induction false} NatTextRoundTrip(n: nat)
    ensures ParseNat(NatText(n)) == n
  {
    if n >= 10 {
      var s := NatText(n);
      assert s[..|s| - 1] == NatText(n / 10);
      NatTextRoundTrip(n / 10);
    }
  }

  /** `xs.join(sep)`. */
  function Join(xs: seq<string>, sep: string): string {
    if |xs| == 0 then []
    else if |xs| == 1 then xs[0]
    else xs[0] + sep + Join(xs[1..], sep)
  }

  /** `String(v)`: an array converts to its items joined with commas. */
  function Text(v: Value): string {
    match v
    case Str(s) => s
    case Num(n) => IntText(n)
    case List(xs) => Join(xs, ",")
  }

  /** A number's text is never blank: it always holds a digit. */
  lemma NumTextNotBlank(n: int)
    ensures !Blank(Text(Num(n)))
  {
    var s := Text(Num(n));
    assert IsDigit(s[|s| - 1]);
  }

  /** A list's text is blank exactly when the list is empty or is one blank
      item: two or more items always put a comma in the text. */
  lemma ListTextBlankIff(xs: seq<string>)
    ensures Blank(Text(List(xs))) <==> |xs| == 0 || (|xs| == 1 && Blank(xs[0]))
  {
    if |xs| >= 2 {
      var s := Text(List(xs));
      assert s == xs[0] + "," + Join(xs[1..], ",");
      assert s[|xs[0]|] == ',';
    }
  }
}
