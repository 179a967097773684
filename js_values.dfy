/** Plain JavaScript values as the front ends keep them in records, and the
    few string operations they apply to them (property access, truthiness,
    template-literal conversion, `toLowerCase`, `includes`). */
module JsValues {

  datatype Option<+T> = None | Some(value: T)

  /** A primitive value stored in a record property. NaN and floating point
      numbers are not modelled: numbers are integers. */
  datatype Field = Undefined | Null | Bool(b: bool) | Num(n: int) | Str(s: string)

  /** A plain object: property name to value. `{...a, ...b}` is `a + b`
      (Dafny's map union keeps the right-hand value on shared keys). */
  type Record = map<string, Field>

  /** `r.k`: a property the object does not have reads as `undefined`. */
  function Prop(r: Record, k: string): (v: Field)
    ensures k in r ==> v == r[k]
    ensures k !in r ==> v == Undefined
  {
    if k in r then r[k] else Undefined
  }

  /** JavaScript truthiness of a primitive value. */
  predicate Truthy(v: Field)
  {
    match v
    case Undefined => false
    case Null => false
    case Bool(b) => b
    case Num(n) => n != 0
    case Str(s) => s != ""
  }

  function DigitChar(d: nat): (c: char)
    requires d < 10
    ensures '0' <= c <= '9'
  {
    (d + '0' as int) as char
  }

  predicate IsDigit(c: char)
  {
    '0' <= c <= '9'
  }

  predicate AllDigits(s: string)
  {
    forall i :: 0 <= i < |s| ==> IsDigit(s[i])
  }

  /** Decimal notation of a natural number, as `n.toString()` gives it. */
  function NatToString(n: nat): (s: string)
    ensures |s| >= 1 && AllDigits(s)
    ensures s[0] == '0' ==> n == 0
  {
    if n < 10 then [DigitChar(n)] else NatToString(n / 10) + [DigitChar(n % 10)]
  }

  /** Value of a string of decimal digits. */
  function DigitsValue(s: string): nat
    requires AllDigits(s)
  {
    if s == [] then 0 else DigitsValue(s[..|s| - 1]) * 10 + (s[|s| - 1] as int - '0' as int)
  }

  /** Decimal notation is read back to the same number. */
  lemma {:induction false} NatToStringRoundTrip(n: nat)
    ensures DigitsValue(NatToString(n)) == n
  {
    if n >= 10 {
      var s := NatToString(n);
      NatToStringRoundTrip(n / 10);
      assert s[..|s| - 1] == NatToString(n / 10);
    }
  }

  /** Two numbers with the same decimal notation are equal. */
  lemma NatToStringInjective(m: nat, n: nat)
    requires NatToString(m) == NatToString(n)
    ensures m == n
  {
    NatToStringRoundTrip(m);
    NatToStringRoundTrip(n);
  }

  function IntToString(n: int): (s: string)
    ensures |s| >= 1
    ensures n >= 0 <==> IsDigit(s[0])
  {
    if n < 0 then "-" + NatToString(-n) else NatToString(n)
  }

  /** `${v}`: the string a template literal makes of a value. */
  function FieldToString(v: Field): string
  {
    match v
    case Undefined => "undefined"
    case Null => "null"
    case Bool(b) => if b then "true" else "false"
    case Num(n) => IntToString(n)
    case Str(s) => s
  }

  /** Only strings and the four keyword values print as a word starting with
      a lower-case letter: a number's form starts with a digit or a minus. */
  lemma FieldToStringWord(v: Field)
    requires |FieldToString(v)| > 0 && 'a' <= FieldToString(v)[0] <= 'z'
    ensures v.Str? || v in {Undefined, Null, Bool(true), Bool(false)}
  {
  }

  /** Lower-casing of one character; only ASCII letters are modelled. */
  function LowerChar(c: char): (r: char)
    ensures !('A' <= r <= 'Z')
    ensures !('A' <= c <= 'Z') ==> r == c
  {
    if 'A' <= c <= 'Z' then (c as int + 32) as char else c
  }

  /** `s.toLowerCase()` restricted to ASCII upper-case letters. */
  function ToLower(s: string): (r: string)
    ensures |r| == |s|
    ensures forall i :: 0 <= i < |r| ==> !('A' <= r[i] <= 'Z')
  {
    seq(|s|, i requires 0 <= i < |s| => LowerChar(s[i]))
  }

  lemma ToLowerIdempotent(s: string)
    ensures ToLower(ToLower(s)) == ToLower(s)
  {
  }

  predicate IsPrefix(p: string, s: string)
  {
    |p| <= |s| && s[..|p|] == p
  }

  /** `hay.includes(needle)`: the needle occurs somewhere in the haystack. */
  predicate Includes(hay: string, needle: string)
    decreases |hay|
  {
    IsPrefix(needle, hay) || (hay != [] && Includes(hay[1..], needle))
  }

  /** The needle occurs in the haystack starting at position `i`. */
  predicate OccursAt(hay: string, needle: string, i: int)
  {
    0 <= i && i + |needle| <= |hay| && hay[i..i + |needle|] == needle
  }

  /** `includes` means: the needle occurs at some position. */
  lemma {:induction false} IncludesAt(hay: string, needle: string)
    ensures Includes(hay, needle) <==> exists i :: OccursAt(hay, needle, i)
    decreases |hay|
  {
    if IsPrefix(needle, hay) {
      assert OccursAt(hay, needle, 0);
    }
    if hay != [] {
      IncludesAt(hay[1..], needle);
      if Includes(hay[1..], needle) {
        var i :| OccursAt(hay[1..], needle, i);
        assert hay[i + 1..i + 1 + |needle|] == hay[1..][i..i + |needle|];
        assert OccursAt(hay, needle, i + 1);
      }
      if exists i :: OccursAt(hay, needle, i) {
        var i :| OccursAt(hay, needle, i);
        if i > 0 {
          assert hay[1..][i - 1..i - 1 + |needle|] == hay[i..i + |needle|];
          assert OccursAt(hay[1..], needle, i - 1);
        }
      }
    }
  }

  /** A needle longer than the haystack is never found. */
  lemma {:induction false} IncludesNeedsLength(hay: string, needle: string)
    requires |hay| < |needle|
    ensures !Includes(hay, needle)
    decreases |hay|
  {
    if hay != [] {
      IncludesNeedsLength(hay[1..], needle);
    }
  }

  /** The empty string is found in every string, so an empty search keeps all. */
  lemma IncludesEmpty(hay: string)
    ensures Includes(hay, "")
  {
  }

  /** Case-insensitive search of one text: both sides lower-cased, then `includes`. */
  predicate MatchesText(text: string, query: string)
  {
    Includes(ToLower(text), ToLower(query))
  }
}
