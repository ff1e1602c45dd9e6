/**
 * The slice of JavaScript semantics that the doctor-directory code relies on:
 * numbers that may be NaN, parsed JSON values and their truthiness, `||`, `??`,
 * property access and optional chaining, ASCII `toLowerCase`, `includes`,
 * `split`, `Number(...)`, `Number.parseInt`, `toString` and `Array.prototype.slice`.
 */
module Js {

  datatype Option<+T> = None | Some(value: T)

  /** A JavaScript number as the modelled code produces it: an integer or NaN. */
  datatype JsNum = Num(n: int) | NaN

  /** `if (x)` on a number: false for 0 and NaN. */
  predicate NumTruthy(x: JsNum) {
    x.Num? && x.n != 0
  }

  /** A value produced by `JSON.parse`. */
  datatype Json =
    | Null
    | Bool(b: bool)
    | Number(r: real)
    | Str(s: string)
    | Arr(items: seq<Json>)
    | Obj(fields: map<string, Json>)

  /** A JavaScript value read out of parsed JSON: `None` is `undefined`. */
  type Value = Option<Json>

  /** `!!v`: undefined, null, false, 0 and "" are falsy; everything else is truthy. */
  predicate Truthy(v: Value) {
    match v
    case None => false
    case Some(j) =>
      match j
      case Null => false
      case Bool(b) => b
      case Number(r) => r != 0.0
      case Str(s) => s != ""
      case Arr(_) => true
      case Obj(_) => true
  }

  /** `v || d` */
  function Or(v: Value, d: Json): Json {
    if Truthy(v) then v.value else d
  }

  /** `v ?? d`: only undefined and null are replaced. */
  function Coalesce(v: Value, d: Json): Json {
    match v
    case None => d
    case Some(j) => if j == Null then d else j
  }

  /**
   * `v || d` and `v ?? d` agree except on a defined, non-null falsy value
   * (`false`, `0`, `""`), which `||` replaces and `??` keeps.
   */
  lemma OrCoalesceDiffer(v: Value, d: Json)
    ensures Or(v, d) != Coalesce(v, d) ==> v.Some? && v.value != Null && !Truthy(v) && v.value != d
    ensures v.Some? && v.value != Null && !Truthy(v) ==> Or(v, d) == d && Coalesce(v, d) == v.value
    ensures Or(Some(Number(0.0)), Null) == Null && Coalesce(Some(Number(0.0)), Null) == Number(0.0)
  {
  }

  /**
   * `o.k` (and `o[k]`). `None` means a TypeError is thrown: reading a property of
   * undefined or null. Other primitives and arrays have none of the properties
   * this code reads, so they give undefined.
   */
  function Prop(o: Value, k: string): (r: Option<Value>)
    ensures r.None? <==> o == None || o == Some(Null)
    ensures r.Some? && r.value.Some? ==> o.value.Obj? && k in o.value.fields && r.value.value == o.value.fields[k]
    ensures o.Some? && o.value.Obj? && k in o.value.fields ==> r == Some(Some(o.value.fields[k]))
    ensures o.Some? && o.value != Null && !(o.value.Obj? && k in o.value.fields) ==> r == Some(None)
  {
    match o
    case None => None
    case Some(j) =>
      match j
      case Null => None
      case Obj(m) => Some(if k in m then Some(m[k]) else None)
      case _ => Some(None)
  }

  /** `o?.k`: undefined instead of a TypeError when `o` is undefined or null. */
  function OptProp(o: Value, k: string): (r: Value)
    ensures Prop(o, k).Some? ==> r == Prop(o, k).value
    ensures Prop(o, k).None? ==> r == None
  {
    match o
    case None => None
    case Some(j) =>
      match j
      case Obj(m) => if k in m then Some(m[k]) else None
      case _ => None
  }

  // ---------------------------------------------------------------- strings

  /** `toLowerCase` restricted to ASCII letters. */
  function LowerChar(c: char): char {
    if 'A' <= c <= 'Z' then (c as int + 32) as char else c
  }

  function Lower(s: string): (r: string)
    ensures |r| == |s|
    ensures forall i :: 0 <= i < |r| ==> !('A' <= r[i] <= 'Z')
    ensures forall i :: 0 <= i < |s| && !('A' <= s[i] <= 'Z') ==> r[i] == s[i]
    ensures forall i :: 0 <= i < |s| && 'A' <= s[i] <= 'Z' ==> r[i] as int == s[i] as int + 32
  {
    seq(|s|, i requires 0 <= i < |s| => LowerChar(s[i]))
  }

  lemma LowerIdempotent(s: string)
    ensures Lower(Lower(s)) == Lower(s)
  {
  }

  /** `haystack.includes(needle)` */
  function Includes(haystack: string, needle: string): bool
    decreases |haystack|
  {
    |needle| <= |haystack| && (haystack[..|needle|] == needle || Includes(haystack[1..], needle))
  }

  /** `needle` occurs in `haystack` at offset `i`. */
  predicate OccursAt(haystack: string, needle: string, i: int) {
    0 <= i && i + |needle| <= |haystack| && haystack[i..i + |needle|] == needle
  }

  /** `includes` holds exactly when the needle occurs at some offset. */
  lemma {:induction false} IncludesIff(haystack: string, needle: string)
    ensures Includes(haystack, needle) <==> exists i :: OccursAt(haystack, needle, i)
    decreases |haystack|
  {
    if |needle| <= |haystack| {
      if haystack[..|needle|] == needle {
        assert OccursAt(haystack, needle, 0);
      } else {
        IncludesIff(haystack[1..], needle);
        if Includes(haystack[1..], needle) {
          var i :| OccursAt(haystack[1..], needle, i);
          assert haystack[1..][i..i + |needle|] == haystack[i + 1..i + 1 + |needle|];
          assert OccursAt(haystack, needle, i + 1);
        } else {
          forall i | 0 < i && OccursAt(haystack, needle, i)
            ensures OccursAt(haystack[1..], needle, i - 1)
          {
            assert haystack[1..][i - 1..i - 1 + |needle|] == haystack[i..i + |needle|];
          }
        }
      }
    }
  }

  /** Every string includes the empty string. */
  lemma IncludesEmpty(s: string)
    ensures Includes(s, "")
  {
    assert s[..0] == "";
  }

  /** The parts of `s` between occurrences of `sep`, as `s.split(sep)`. */
  function Split(s: string, sep: char): (parts: seq<string>)
    ensures |parts| >= 1
    ensures forall i :: 0 <= i < |parts| ==> sep !in parts[i]
    ensures Join(parts, sep) == s
  {
    if s == [] then [""]
    else if s[0] == sep then [""] + Split(s[1..], sep)
    else
      var rest := Split(s[1..], sep);
      [[s[0]] + rest[0]] + rest[1..]
  }

  /** `parts.join(sep)` */
  function Join(parts: seq<string>, sep: char): string
    requires |parts| >= 1
  {
    if |parts| == 1 then parts[0] else parts[0] + [sep] + Join(parts[1..], sep)
  }

  /** Splitting is the inverse of joining pieces that do not contain the separator. */
  lemma {:induction false} SplitJoin(parts: seq<string>, sep: char)
    requires |parts| >= 1
    requires forall i :: 0 <= i < |parts| ==> sep !in parts[i]
    ensures Split(Join(parts, sep), sep) == parts
    decreases |Join(parts, sep)|
  {
    var head := parts[0];
    if head == [] {
      if |parts| > 1 {
        assert Join(parts, sep) == [sep] + Join(parts[1..], sep);
        assert Join(parts, sep)[1..] == Join(parts[1..], sep);
        SplitJoin(parts[1..], sep);
        assert parts == [""] + parts[1..];
      }
    } else {
      var s := Join(parts, sep);
      var tailParts := [head[1..]] + parts[1..];
      assert tailParts[1..] == parts[1..];
      assert s[0] == head[0];
      assert s[1..] == Join(tailParts, sep) by {
        if |parts| > 1 {
          assert s == head + [sep] + Join(parts[1..], sep);
        }
      }
      SplitJoin(tailParts, sep);
      assert [head[0]] + head[1..] == head;
      assert parts == [head] + tailParts[1..];
    }
  }

  // ---------------------------------------------------------------- numbers

  predicate IsDigit(c: char) {
    '0' <= c <= '9'
  }

  predicate AllDigits(s: string) {
    forall i :: 0 <= i < |s| ==> IsDigit(s[i])
  }

  /** The decimal value of a string of digits. */
  function DigitsValue(s: string): (v: nat)
    requires AllDigits(s)
  {
    if s == [] then 0 else DigitsValue(s[..|s| - 1]) * 10 + (s[|s| - 1] as int - '0' as int)
  }

  /** A leading `+` or `-`, as `Number` and `parseInt` accept one. */
  predicate IsSign(c: char) {
    c == '+' || c == '-'
  }

  /** The value of `digits` with the sign `sign` applied. */
  function Signed(sign: char, digits: string): int
    requires AllDigits(digits)
  {
    if sign == '-' then 0 - DigitsValue(digits) else DigitsValue(digits)
  }

  /**
   * `Number(s)` for integer literals: the empty string is 0, decimal digits
   * with an optional sign are their value, anything else is NaN.
   */
  function ToNumber(s: string): (x: JsNum)
    ensures AllDigits(s) ==> x == Num(DigitsValue(s))
    ensures |s| >= 2 && IsSign(s[0]) && AllDigits(s[1..]) ==> x == Num(Signed(s[0], s[1..]))
    ensures NumberRejects(s) ==> x == NaN
  {
    assert NumberRejects(s) ==> !AllDigits(s) && !(|s| >= 2 && IsSign(s[0]) && AllDigits(s[1..])) by {
      if NumberRejects(s) {
        RejectedNotInteger(s);
      }
    }
    if AllDigits(s) then Num(DigitsValue(s))
    else if |s| >= 2 && IsSign(s[0]) && AllDigits(s[1..]) then Num(Signed(s[0], s[1..]))
    else NaN
  }

  /** A string `Number` rejects is no integer literal, signed or not. */
  lemma RejectedNotInteger(s: string)
    requires NumberRejects(s)
    ensures !AllDigits(s)
    ensures !(|s| >= 2 && IsSign(s[0]) && AllDigits(s[1..]))
  {
    var i :| 0 <= i < |s| && Rejected(s, i);
    assert !IsDigit(s[i]);
    if |s| >= 2 && IsSign(s[0]) && i > 0 {
      assert s[1..][i - 1] == s[i];
    }
  }

  /**
   * Character `i` of `s` rules out every numeric literal: a printable ASCII
   * symbol that no literal uses, or a `+` right after a digit (a sign may only
   * lead the literal or its exponent).
   */
  predicate Rejected(s: string, i: int)
    requires 0 <= i < |s|
  {
    var c := s[i];
    (33 <= c as int <= 126 && !IsDigit(c) && !('a' <= c <= 'z') && !('A' <= c <= 'Z') && c != '.' && !IsSign(c))
    || (i > 0 && c == '+' && IsDigit(s[i - 1]))
  }

  /** `Number(s)` is NaN whatever the number syntax allows. */
  predicate NumberRejects(s: string) {
    exists i :: 0 <= i < |s| && Rejected(s, i)
  }

  /** The length of the longest prefix of `s` made of digits. */
  function DigitPrefixLength(s: string): (k: nat)
    ensures k <= |s| && AllDigits(s[..k])
    ensures k < |s| ==> !IsDigit(s[k])
    ensures AllDigits(s) ==> k == |s|
  {
    if s == [] || !IsDigit(s[0]) then 0
    else
      var k := 1 + DigitPrefixLength(s[1..]);
      assert s[..k] == [s[0]] + s[1..][..k - 1];
      k
  }

  /**
   * `Number.parseInt(s)`: an optional sign, then the value of the leading
   * digits; NaN when no digit follows.
   */
  function ParseInt(s: string): (x: JsNum)
    ensures AllDigits(s) && s != [] ==> x == Num(DigitsValue(s))
    ensures |s| >= 2 && IsSign(s[0]) && AllDigits(s[1..]) ==> x == Num(Signed(s[0], s[1..]))
    ensures s != [] && IsDigit(s[0]) ==> x == Num(DigitsValue(s[..DigitPrefixLength(s)]))
    ensures |s| >= 2 && IsSign(s[0]) && IsDigit(s[1]) ==> x == Num(Signed(s[0], s[1..][..DigitPrefixLength(s[1..])]))
    ensures s == [] || (!IsDigit(s[0]) && !IsSign(s[0])) ==> x == NaN
    ensures s != [] && IsSign(s[0]) && (|s| == 1 || !IsDigit(s[1])) ==> x == NaN
  {
    assert AllDigits(s) ==> s[..|s|] == s;
    assert s != [] ==> s[1..][..|s| - 1] == s[1..];
    var signed := s != [] && IsSign(s[0]);
    var rest := if signed then s[1..] else s;
    var k := DigitPrefixLength(rest);
    if k == 0 then NaN
    else Num(Signed(if signed then s[0] else '+', rest[..k]))
  }

  function DigitChar(d: nat): char
    requires d < 10
  {
    ('0' as int + d) as char
  }

  /** `n.toString()` for a natural number. */
  function NatToString(n: nat): (s: string)
    ensures |s| >= 1 && AllDigits(s)
  {
    if n < 10 then [DigitChar(n)] else NatToString(n / 10) + [DigitChar(n % 10)]
  }

  /** Printing a natural number and reading it back gives the number. */
  lemma {:induction false} NatToStringValue(n: nat)
    ensures DigitsValue(NatToString(n)) == n
  {
    var s := NatToString(n);
    if n >= 10 {
      NatToStringValue(n / 10);
      assert s[..|s| - 1] == NatToString(n / 10);
    } else {
      assert s[..|s| - 1] == [];
    }
  }

  lemma ParseIntNatToString(n: nat)
    ensures ParseInt(NatToString(n)) == Num(n)
  {
    NatToStringValue(n);
  }

  // ---------------------------------------------------------------- arrays

  /** How `slice` turns one argument into an index: NaN is 0, negatives count from the end. */
  function RelativeIndex(x: JsNum, len: nat): (k: nat)
    ensures k <= len
    ensures x.NaN? ==> k == 0
    ensures x.Num? && 0 <= x.n <= len ==> k == x.n
    ensures x.Num? && x.n > len ==> k == len
    ensures x.Num? && x.n < 0 && 0 <= len + x.n ==> k == len + x.n
    ensures x.Num? && len + x.n < 0 ==> k == 0
  {
    match x
    case NaN => 0
    case Num(v) =>
      if v < 0 then (if len + v < 0 then 0 else len + v)
      else if v < len then v else len
  }

  /** A non-negative index clipped to the length `len`. */
  function Clip(i: nat, len: nat): nat {
    if i < len then i else len
  }

  /** `s.slice(start, end)` */
  function Slice<T>(s: seq<T>, start: JsNum, end: JsNum): (r: seq<T>)
    ensures |r| <= |s|
    ensures start.Num? && end.Num? && 0 <= start.n <= end.n ==> r == s[Clip(start.n, |s|)..Clip(end.n, |s|)]
    ensures start.Num? && end.Num? && 0 <= end.n <= start.n ==> r == []
    ensures start.NaN? && end.NaN? ==> r == []
    ensures start.Num? && start.n < 0 && 0 <= |s| + start.n && end.Num? && end.n >= |s| ==> r == s[|s| + start.n..]
  {
    var from, to := RelativeIndex(start, |s|), RelativeIndex(end, |s|);
    if from < to then s[from..to] else []
  }
}
