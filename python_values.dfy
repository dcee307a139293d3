/**
 * The slice of Python's runtime behaviour the EcoMarket tools depend on:
 * decoded JSON values, truthiness, `dict.get`, `or`, iteration, `str()`,
 * `str.lower()`, `str.strip()` and the exceptions these raise on values of
 * the wrong shape.
 */
module PyValues {

  datatype Option<+T> = None | Some(value: T)

  /** A value produced by `json.load`. Objects keep their keys in insertion
      order. `json.load` keeps the last of two bindings of one key, while
      `Find` reads the first, so objects are taken to have distinct keys
      (`DistinctKeys`). */
  datatype Json =
    | JNull
    | JBool(b: bool)
    | JInt(i: int)
    | JStr(s: string)
    | JList(items: seq<Json>)
    | JObject(fields: seq<(string, Json)>)

  /** No key is bound twice, as in every object `json.load` returns. */
  predicate DistinctKeys(fields: seq<(string, Json)>) {
    forall i, j :: 0 <= i < j < |fields| ==> fields[i].0 != fields[j].0
  }

  /** The exceptions the modelled code can raise. */
  datatype Exc =
    | AttributeError
    | TypeError
    | ValueError(message: string)
    | FileNotFoundError

  /** What a Python call does: it returns a value or raises. */
  datatype Outcome<+T> = Returned(value: T) | Raised(exc: Exc) {
    predicate IsFailure() { Raised? }
    function PropagateFailure<U>(): Outcome<U>
      requires Raised?
    {
      Raised(exc)
    }
    function Extract(): T
      requires Returned?
    {
      value
    }
  }

  // ---------------------------------------------------------------------
  // Truthiness, `or`, `dict.get`, iteration

  /** `bool(v)` */
  predicate Truthy(v: Json) {
    match v
    case JNull => false
    case JBool(b) => b
    case JInt(i) => i != 0
    case JStr(s) => s != ""
    case JList(xs) => xs != []
    case JObject(fs) => fs != []
  }

  /** `a or b`: the first operand when it is truthy, else the second. */
  function Or(a: Json, b: Json): (r: Json)
    ensures Truthy(r) <==> Truthy(a) || Truthy(b)
    ensures Truthy(a) ==> r == a
  {
    if Truthy(a) then a else b
  }

  /** The value stored under `key`, if any. */
  function Find(fields: seq<(string, Json)>, key: string): Option<Json> {
    if |fields| == 0 then None
    else if fields[0].0 == key then Some(fields[0].1)
    else Find(fields[1..], key)
  }

  /** A key is found exactly when some field carries it, and what is found
      is the value of such a field. */
  lemma {:induction false} FindSpec(fields: seq<(string, Json)>, key: string)
    ensures Find(fields, key).Some? <==> exists i :: 0 <= i < |fields| && fields[i].0 == key
    ensures Find(fields, key).Some? ==> exists i :: 0 <= i < |fields| && fields[i] == (key, Find(fields, key).value)
  {
    if |fields| > 0 && fields[0].0 != key {
      FindSpec(fields[1..], key);
      assert forall i :: 1 <= i < |fields| ==> fields[i] == fields[1..][i - 1];
    }
  }

  /** In an object without repeated keys, every binding is the one `get`
      finds, so reading the first binding and keeping the last agree. */
  lemma {:induction false} FindBinding(fields: seq<(string, Json)>, i: nat)
    requires DistinctKeys(fields) && i < |fields|
    ensures Find(fields, fields[i].0) == Some(fields[i].1)
  {
    if i > 0 {
      var rest := fields[1..];
      assert DistinctKeys(rest) by {
        assert forall a, b :: 0 <= a < b < |rest| ==> rest[a] == fields[a + 1] && rest[b] == fields[b + 1];
      }
      FindBinding(rest, i - 1);
      assert rest[i - 1] == fields[i];
    }
  }

  /** `d.get(key, default)` on a dict */
  function GetOr(fields: seq<(string, Json)>, key: string, default: Json): Json {
    match Find(fields, key)
    case Some(v) => v
    case None => default
  }

  /** `d.get(key)` on a dict: a missing key reads as `None`. */
  function Get(fields: seq<(string, Json)>, key: string): Json {
    GetOr(fields, key, JNull)
  }

  /** The dict behind a value on which the code calls `.get`; any other
      value has no `get` attribute. */
  function Fields(v: Json): (r: Outcome<seq<(string, Json)>>)
    ensures r.Returned? <==> v.JObject?
    ensures v.JObject? ==> r.value == v.fields
  {
    if v.JObject? then Returned(v.fields) else Raised(AttributeError)
  }

  /** The elements a `for` loop visits: a list's items, a string's
      characters, a dict's keys; anything else is not iterable. */
  function Iterate(v: Json): (r: Outcome<seq<Json>>)
    ensures r.Returned? <==> v.JList? || v.JStr? || v.JObject?
    ensures v.JList? ==> r == Returned(v.items)
    ensures v.JStr? ==> |r.value| == |v.s| && forall i :: 0 <= i < |v.s| ==> r.value[i] == JStr([v.s[i]])
    ensures v.JObject? ==> |r.value| == |v.fields| && forall i :: 0 <= i < |v.fields| ==> r.value[i] == JStr(v.fields[i].0)
    ensures r.Returned? ==> (Truthy(v) <==> r.value != [])
  {
    match v
    case JList(xs) => Returned(xs)
    case JStr(s) => Returned(seq(|s|, i requires 0 <= i < |s| => JStr([s[i]])))
    case JObject(fs) => Returned(seq(|fs|, i requires 0 <= i < |fs| => JStr(fs[i].0)))
    case _ => Raised(TypeError)
  }

  // ---------------------------------------------------------------------
  // Decimal digits

  predicate IsDigit(c: char) { '0' <= c <= '9' }

  predicate AllDigits(s: string) { forall i :: 0 <= i < |s| ==> IsDigit(s[i]) }

  function DigitChar(d: nat): (c: char)
    requires d < 10
    ensures IsDigit(c) && c as int - '0' as int == d
  {
    (('0' as int) + d) as char
  }

  function DigitValue(c: char): (d: nat)
    requires IsDigit(c)
    ensures d < 10 && DigitChar(d) == c
  {
    c as int - '0' as int
  }

  /** The number a string of decimal digits denotes, as `int(s)` reads it. */
  function DigitsValue(s: string): nat
    requires AllDigits(s)
  {
    if |s| == 0 then 0 else DigitsValue(s[..|s| - 1]) * 10 + DigitValue(s[|s| - 1])
  }

  lemma {:induction false} DigitsValueBound(s: string)
    requires AllDigits(s)
    ensures DigitsValue(s) < Pow10(|s|)
  {
    if |s| > 0 {
      DigitsValueBound(s[..|s| - 1]);
    }
  }

  /** `str(n)` for a natural number */
  function NatToString(n: nat): (r: string)
    ensures |r| >= 1 && AllDigits(r)
    ensures n < 10 <==> |r| == 1
  {
    if n < 10 then [DigitChar(n)] else NatToString(n / 10) + [DigitChar(n % 10)]
  }

  /** `str(i)` for an integer */
  function IntToString(i: int): (r: string)
    ensures |r| >= 1
    ensures i >= 0 ==> AllDigits(r)
    ensures i < 0 ==> r[0] == '-' && AllDigits(r[1..])
  {
    if i < 0 then "-" + NatToString(-i) else NatToString(i)
  }

  lemma {:induction false} NatToStringRoundTrip(n: nat)
    ensures DigitsValue(NatToString(n)) == n
  {
    if n >= 10 {
      var t := NatToString(n / 10);
      NatToStringRoundTrip(n / 10);
      assert (t + [DigitChar(n % 10)])[..|t|] == t;
    }
  }

  /** Different numbers print differently. */
  lemma NatToStringInjective(m: nat, n: nat)
    requires NatToString(m) == NatToString(n)
    ensures m == n
  {
    NatToStringRoundTrip(m);
    NatToStringRoundTrip(n);
  }

  function Zeros(k: nat): (r: string)
    ensures |r| == k && AllDigits(r)
  {
    if k == 0 then "" else "0" + Zeros(k - 1)
  }

  /** `"%0*d" % (width, n)`: at least `width` digits, zero-padded on the left. */
  function Pad(n: nat, width: nat): (r: string)
    ensures AllDigits(r) && |r| >= width
  {
    var t := NatToString(n);
    if |t| >= width then t else Zeros(width - |t|) + t
  }

  lemma {:induction false} LeadingZerosValue(k: nat, t: string)
    requires AllDigits(t)
    ensures AllDigits(Zeros(k) + t) && DigitsValue(Zeros(k) + t) == DigitsValue(t)
    decreases |t|, k
  {
    var z := Zeros(k);
    if |t| == 0 {
      assert z + t == z;
      if k > 0 {
        LeadingZerosValue(k - 1, t);
        assert Zeros(k - 1) + t == Zeros(k - 1);
        assert z[..|z| - 1] == Zeros(k - 1) by {
          assert z == "0" + Zeros(k - 1);
          assert forall i :: 0 <= i < k - 1 ==> z[i] == '0' && Zeros(k - 1)[i] == '0' by {
            ZerosAreZero(k);
            ZerosAreZero(k - 1);
          }
        }
        ZerosAreZero(k);
      }
    } else {
      var init := t[..|t| - 1];
      LeadingZerosValue(k, init);
      assert (z + t)[..|z + t| - 1] == z + init;
      assert (z + t)[|z + t| - 1] == t[|t| - 1];
    }
  }

  lemma {:induction false} ZerosAreZero(k: nat)
    ensures forall i :: 0 <= i < k ==> Zeros(k)[i] == '0'
  {
    if k > 0 {
      ZerosAreZero(k - 1);
      assert Zeros(k) == "0" + Zeros(k - 1);
    }
  }

  function Pow10(k: nat): (r: nat)
    ensures r >= 1
  {
    if k == 0 then 1 else 10 * Pow10(k - 1)
  }

  lemma {:induction false} NatToStringLength(n: nat, k: nat)
    requires n < Pow10(k)
    ensures |NatToString(n)| <= k || (n == 0 && k == 0)
  {
    if n >= 10 {
      NatToStringLength(n / 10, k - 1);
    }
  }

  /** Zero-padding keeps the value and, for numbers below 10^width, gives
      exactly `width` digits. */
  lemma PadProperties(n: nat, width: nat)
    requires n < Pow10(width) && width >= 1
    ensures |Pad(n, width)| == width
    ensures DigitsValue(Pad(n, width)) == n
  {
    NatToStringLength(n, width);
    NatToStringRoundTrip(n);
    var t := NatToString(n);
    if |t| < width {
      LeadingZerosValue(width - |t|, t);
    }
  }

  /** A two-digit field written with "%02d" holds its tens and its units. */
  lemma {:induction false} Pad2Digits(n: nat)
    requires n < 100
    ensures Pad(n, 2) == [DigitChar(n / 10), DigitChar(n % 10)]
  {
    if n < 10 {
      assert NatToString(n) == [DigitChar(n)];
      assert Zeros(1) == "0";
    } else {
      assert NatToString(n / 10) == [DigitChar(n / 10)];
    }
  }

  // ---------------------------------------------------------------------
  // str() and repr()

  /** `str(v)`; strings print as themselves. */
  function PyStr(v: Json): string {
    match v
    case JStr(s) => s
    case _ => Repr(v)
  }

  /** `repr(v)`, for strings and the keys of dictionaries as well. */
  function Repr(v: Json): (r: string)
    ensures |r| >= 1
  {
    match v
    case JNull => "None"
    case JBool(b) => if b then "True" else "False"
    case JInt(i) => IntToString(i)
    case JStr(s) => ReprString(s)
    case JList(xs) => "[" + ReprItems(xs) + "]"
    case JObject(fs) => "{" + ReprFields(fs) + "}"
  }

  /** `repr` of a string: single quotes, or double quotes when the text
      holds a single quote and no double quote; the chosen quote, the
      backslash and the non-printable Latin-1 characters are escaped. */
  function ReprString(s: string): (r: string)
    ensures |r| >= 2 && r[0] == r[|r| - 1] && (r[0] == '\'' || r[0] == '"')
  {
    var quote := if '\'' in s && '"' !in s then '"' else '\'';
    [quote] + EscapeAll(s, quote) + [quote]
  }

  function EscapeAll(s: string, quote: char): string {
    if |s| == 0 then "" else EscapeChar(s[0], quote) + EscapeAll(s[1..], quote)
  }

  /** A character `repr` writes as itself inside the quotes: printable and
      neither the quote nor the backslash. */
  predicate ShownAsIs(c: char, quote: char) {
    c != quote && c != '\\' && ' ' <= c && !('\U{7F}' <= c <= '\U{A0}') && c != '\U{AD}'
  }

  /** How `repr` writes one character between the quotes. */
  function EscapeChar(c: char, quote: char): (r: string)
    ensures ShownAsIs(c, quote) <==> r == [c]
    ensures !ShownAsIs(c, quote) ==> |r| >= 2 && r[0] == '\\'
  {
    if c == quote || c == '\\' then ['\\', c]
    else if c == '\n' then "\\n"
    else if c == '\r' then "\\r"
    else if c == '\t' then "\\t"
    else if c < ' ' || ('\U{7F}' <= c <= '\U{A0}') || c == '\U{AD}' then
      "\\x" + [HexDigit(c as int / 16), HexDigit(c as int % 16)]
    else [c]
  }

  function HexDigit(n: nat): char
    requires n < 16
  {
    if n < 10 then DigitChar(n) else ('a' as int + n - 10) as char
  }

  /** Characters that print as themselves are copied unchanged. */
  lemma {:induction false} EscapeAllAsIs(s: string, quote: char)
    requires forall i :: 0 <= i < |s| ==> ShownAsIs(s[i], quote)
    ensures EscapeAll(s, quote) == s
  {
    if |s| > 0 {
      EscapeAllAsIs(s[1..], quote);
      assert [s[0]] + s[1..] == s;
    }
  }

  /** A string of printable characters without a backslash is written
      between single quotes, or between double quotes when it holds a
      single quote and no double quote. */
  lemma ReprPlainString(s: string)
    requires forall i :: 0 <= i < |s| ==> ShownAsIs(s[i], '"') || ShownAsIs(s[i], '\'')
    requires '\\' !in s
    ensures '\'' !in s ==> Repr(JStr(s)) == "'" + s + "'"
    ensures '\'' in s && '"' !in s ==> Repr(JStr(s)) == "\"" + s + "\""
  {
    if '\'' !in s {
      forall i | 0 <= i < |s| ensures ShownAsIs(s[i], '\'') {
        assert s[i] != '\'' && s[i] != '\\';
      }
      EscapeAllAsIs(s, '\'');
    } else if '"' !in s {
      forall i | 0 <= i < |s| ensures ShownAsIs(s[i], '"') {
        assert s[i] != '"' && s[i] != '\\';
      }
      EscapeAllAsIs(s, '"');
    }
  }

  /** Escapes `repr` writes for a quote of the other kind, a newline and
      a backslash. */
  lemma ReprEscapes()
    ensures Repr(JStr("it's")) == "\"it's\""
    ensures Repr(JStr("a'\"")) == "'a\\'\"'"
    ensures Repr(JStr("a\nb")) == "'a\\nb'"
    ensures Repr(JStr("\\")) == "'\\\\'"
  {
    assert "it's"[2] == '\'';
    assert "a'\""[1] == '\'' && "a'\""[2] == '"';
    assert "a'\""[1..][1..] == "\"";
  }

  function ReprItems(xs: seq<Json>): string {
    if |xs| == 0 then ""
    else if |xs| == 1 then Repr(xs[0])
    else Repr(xs[0]) + ", " + ReprItems(xs[1..])
  }

  function ReprFields(fs: seq<(string, Json)>): string {
    if |fs| == 0 then ""
    else
      var (k, v) := fs[0];
      assert v < fs[0];
      var entry := ReprString(k) + ": " + Repr(v);
      if |fs| == 1 then entry else entry + ", " + ReprFields(fs[1..])
  }

  /** The helper `s` of the ingest scripts: `None` becomes the empty
      string, every other value its `str()`. */
  function S(v: Json): (r: string)
    ensures v.JStr? ==> r == v.s
  {
    if v == JNull then "" else PyStr(v)
  }

  /** `s` yields the empty string only for `None` and the empty string. */
  lemma SEmpty(v: Json)
    ensures S(v) == "" <==> v == JNull || v == JStr("")
  {
    match v
    case JNull =>
    case JBool(b) =>
    case JInt(i) =>
    case JStr(t) =>
    case JList(xs) => assert S(v)[0] == '[';
    case JObject(fs) => assert S(v)[0] == '{';
  }

  // ---------------------------------------------------------------------
  // str.lower() and str.strip()

  predicate IsUpper(c: char) {
    ('A' <= c <= 'Z') || ('À' <= c <= 'Þ' && c != '×')
  }

  function LowerChar(c: char): (r: char)
    ensures !IsUpper(c) ==> r == c
    ensures !IsUpper(r)
  {
    if IsUpper(c) then (c as int + 32) as char else c
  }

  /** `s.lower()` for ASCII and Latin-1 letters */
  function Lower(s: string): (r: string)
    ensures |r| == |s|
    ensures forall i :: 0 <= i < |s| ==> r[i] == LowerChar(s[i])
    ensures forall i :: 0 <= i < |r| ==> !IsUpper(r[i])
  {
    seq(|s|, i requires 0 <= i < |s| => LowerChar(s[i]))
  }

  /** Two characters that are equal or differ only in case: one is a
      capital and the other its small letter. */
  predicate SameIgnoringCase(a: char, b: char) {
    a == b || (IsUpper(a) && b as int == a as int + 32) || (IsUpper(b) && a as int == b as int + 32)
  }

  /** Comparing lower-cased texts compares them ignoring case: they agree
      exactly when they have the same length and agree letter by letter up
      to case. */
  lemma LowerIgnoresCase(s: string, t: string)
    ensures Lower(s) == Lower(t) <==>
              |s| == |t| && forall i :: 0 <= i < |s| ==> SameIgnoringCase(s[i], t[i])
  {
    if |s| == |t| && forall i :: 0 <= i < |s| ==> SameIgnoringCase(s[i], t[i]) {
      forall i | 0 <= i < |s|
        ensures Lower(s)[i] == Lower(t)[i]
      {
        assert SameIgnoringCase(s[i], t[i]);
      }
    }
    if Lower(s) == Lower(t) {
      forall i | 0 <= i < |s|
        ensures SameIgnoringCase(s[i], t[i])
      {
        assert LowerChar(s[i]) == LowerChar(t[i]);
      }
    }
  }

  lemma LowerIdempotent(s: string)
    ensures Lower(Lower(s)) == Lower(s)
  {
    forall i | 0 <= i < |s|
      ensures LowerChar(LowerChar(s[i])) == LowerChar(s[i])
    {
      if IsUpper(s[i]) {
        assert !IsUpper(LowerChar(s[i]));
      }
    }
  }

  /** `c.isspace()` */
  predicate IsSpace(c: char) {
    ('\t' <= c <= '\r') || ('\U{1C}' <= c <= ' ')
    || c == '\U{85}' || c == '\U{A0}' || c == '\U{1680}'
    || ('\U{2000}' <= c <= '\U{200A}')
    || c == '\U{2028}' || c == '\U{2029}' || c == '\U{202F}'
    || c == '\U{205F}' || c == '\U{3000}'
  }

  function StripLeft(s: string): string {
    if |s| > 0 && IsSpace(s[0]) then StripLeft(s[1..]) else s
  }

  function StripRight(s: string): string {
    if |s| > 0 && IsSpace(s[|s| - 1]) then StripRight(s[..|s| - 1]) else s
  }

  /** `s.strip()` */
  function Strip(s: string): string {
    StripLeft(StripRight(s))
  }

  /** Stripping on the left drops a prefix of white space and stops at the
      first other character. */
  lemma {:induction false} StripLeftSpec(s: string)
    ensures var r := StripLeft(s);
            |r| <= |s| && r == s[|s| - |r|..]
            && (forall i :: 0 <= i < |s| - |r| ==> IsSpace(s[i]))
            && (r == [] || !IsSpace(r[0]))
  {
    if |s| > 0 && IsSpace(s[0]) {
      StripLeftSpec(s[1..]);
    }
  }

  /** Stripping on the right drops a suffix of white space and stops at the
      last other character. */
  lemma {:induction false} StripRightSpec(s: string)
    ensures var r := StripRight(s);
            |r| <= |s| && r == s[..|r|]
            && (forall i :: |r| <= i < |s| ==> IsSpace(s[i]))
            && (r == [] || !IsSpace(r[|r| - 1]))
  {
    if |s| > 0 && IsSpace(s[|s| - 1]) {
      StripRightSpec(s[..|s| - 1]);
    }
  }

  /** `s.strip()` leaves a slice of `s` that neither starts nor ends with
      white space, and removes nothing else. */
  lemma StripSpec(s: string)
    ensures var r := Strip(s);
            && (r == [] || (!IsSpace(r[0]) && !IsSpace(r[|r| - 1])))
            && var m := |StripRight(s)|;
               && |r| <= m <= |s| && r == s[m - |r|..m]
               && (forall i :: 0 <= i < m - |r| ==> IsSpace(s[i]))
               && (forall i :: m <= i < |s| ==> IsSpace(s[i]))
  {
    var m := StripRight(s);
    StripRightSpec(s);
    StripLeftSpec(m);
    assert s[..|m|][|m| - |Strip(s)|..] == s[|m| - |Strip(s)|..|m|];
    forall i | 0 <= i < |m| - |Strip(s)|
      ensures IsSpace(s[i])
    {
      assert m[i] == s[i];
    }
  }

  /** Stripping a string that neither starts nor ends with white space
      leaves it unchanged. */
  lemma StripNoSpace(s: string)
    requires |s| > 0 && !IsSpace(s[0]) && !IsSpace(s[|s| - 1])
    ensures Strip(s) == s
  {
  }

  /** Where the three pieces of a concatenation sit. */
  lemma Slices(a: string, b: string, c: string)
    ensures (a + b + c)[..|a|] == a && (a + b + c)[|a|..|a| + |b|] == b
    ensures (a + b + c)[|a| + |b|..] == c
  {
  }
}
