/**
 * The pieces of the Java platform whose exact behaviour the core relies on:
 * 32-bit int arithmetic, String.hashCode, Objects.hash, String.trim,
 * String.split with a one-character separator, Integer.parseInt,
 * Integer.toString and an ASCII String.equalsIgnoreCase.
 */
module JavaLang {
  import opened Wrappers

  /** A Java `int`. */
  type Int32 = x: int | -0x8000_0000 <= x <= 0x7fff_ffff

  /** A Java String reference: null, or the characters of the string. */
  type JString = Option<string>

  /** The classes of the exceptions the core throws or catches. */
  datatype ExceptionKind =
    | RuntimeException
    | IllegalArgumentException
    | IllegalStateException
    | NullPointerException
    | NumberFormatException
    | ArrayIndexOutOfBoundsException
    | NegativeArraySizeException
    | PlainException              // java.lang.Exception itself
    | PlainThrowable              // java.lang.Throwable itself
    | Foreign(className: string)  // an Exception thrown by code outside the model (services, serializers, ZooKeeper)
    | ForeignError(className: string)  // a java.lang.Error thrown by code outside the model (StackOverflowError, ...)

  /** A thrown object: its class, its message (may be null) and its cause (may be null). */
  datatype Throwable = Throwable(kind: ExceptionKind, message: JString, cause: Option<Throwable>)

  function Raise(kind: ExceptionKind, message: string): Throwable {
    Throwable(kind, Some(message), None)
  }

  /** What a null dereference, or a null key in a concurrent map, throws: a NullPointerException without a message. */
  const NULL_POINTER: Throwable := Throwable(NullPointerException, None, None)

  /** The fully qualified class name of an exception kind. */
  function ClassName(k: ExceptionKind): string {
    match k
    case RuntimeException => "java.lang.RuntimeException"
    case IllegalArgumentException => "java.lang.IllegalArgumentException"
    case IllegalStateException => "java.lang.IllegalStateException"
    case NullPointerException => "java.lang.NullPointerException"
    case NumberFormatException => "java.lang.NumberFormatException"
    case ArrayIndexOutOfBoundsException => "java.lang.ArrayIndexOutOfBoundsException"
    case NegativeArraySizeException => "java.lang.NegativeArraySizeException"
    case PlainException => "java.lang.Exception"
    case PlainThrowable => "java.lang.Throwable"
    case Foreign(name) => name
    case ForeignError(name) => name
  }

  /** The thrown object is a java.lang.Exception, so `catch (Exception e)` catches it. */
  predicate IsException(t: Throwable) {
    t.kind != PlainThrowable && !t.kind.ForeignError?
  }

  /** Throwable.toString: the class name, then ": " and the message when there is one. */
  function ThrowableToString(t: Throwable): (s: string)
    ensures |s| >= |ClassName(t.kind)| && s[..|ClassName(t.kind)|] == ClassName(t.kind)
    ensures t.message.None? <==> |s| == |ClassName(t.kind)|
  {
    match t.message
    case None => ClassName(t.kind)
    case Some(m) => ClassName(t.kind) + ": " + m
  }

  /** `new Throwable(cause)`: the cause's toString becomes the message. */
  function WrapCause(cause: Throwable): (t: Throwable)
    ensures t.kind == PlainThrowable && t.cause == Some(cause)
  {
    Throwable(PlainThrowable, Some(ThrowableToString(cause)), Some(cause))
  }

  /** What `"" + s` yields for a String reference `s`. */
  function Text(s: JString): string {
    match s
    case None => "null"
    case Some(v) => v
  }

  // ---------------------------------------------------------------- int arithmetic

  /** Two's-complement wrap-around of a mathematical integer into a Java int. */
  function Wrap32(x: int): (r: Int32)
    ensures (r - x) % 0x1_0000_0000 == 0
    ensures -0x8000_0000 <= x <= 0x7fff_ffff ==> r == x
  {
    var m := (x + 0x8000_0000) % 0x1_0000_0000;
    assert x + 0x8000_0000 == 0x1_0000_0000 * ((x + 0x8000_0000) / 0x1_0000_0000) + m;
    m - 0x8000_0000
  }

  /** Wrapping depends only on the value modulo 2^32. */
  lemma WrapCongruent(x: int, y: int, k: int)
    requires x - y == k * 0x1_0000_0000
    ensures Wrap32(x) == Wrap32(y)
  {
    var mx := (x + 0x8000_0000) % 0x1_0000_0000;
    var my := (y + 0x8000_0000) % 0x1_0000_0000;
    var qx := (x + 0x8000_0000) / 0x1_0000_0000;
    var qy := (y + 0x8000_0000) / 0x1_0000_0000;
    assert x + 0x8000_0000 == qx * 0x1_0000_0000 + mx;
    assert y + 0x8000_0000 == qy * 0x1_0000_0000 + my;
    assert mx - my == (qy - qx + k) * 0x1_0000_0000;
  }

  /** One step h = 31 * h + x of a hash may use the wrapped or the unwrapped previous value. */
  lemma WrapStep(h: int, x: int)
    ensures Wrap32(31 * Wrap32(h) + x) == Wrap32(31 * h + x)
  {
    var w := Wrap32(h);
    var k := (w - h) / 0x1_0000_0000;
    assert w - h == k * 0x1_0000_0000;
    assert (31 * w + x) - (31 * h + x) == (31 * k) * 0x1_0000_0000;
    WrapCongruent(31 * w + x, 31 * h + x, 31 * k);
  }

  /**
   * The UTF-16 code units of one character, as a Java String stores it: one
   * unit for a character of the Basic Multilingual Plane, a surrogate pair
   * (high, then low) for a character above U+FFFF.
   */
  function Utf16Units(c: char): (units: seq<int>)
    ensures 1 <= |units| <= 2
    ensures forall k :: 0 <= k < |units| ==> 0 <= units[k] <= 0xffff
    ensures |units| == 1 <==> c as int <= 0xffff
    ensures |units| == 1 ==> units[0] == c as int
    ensures |units| == 2 ==> 0xd800 <= units[0] < 0xdc00 <= units[1] < 0xe000
    ensures |units| == 2 ==> 0x10000 + (units[0] - 0xd800) * 0x400 + (units[1] - 0xdc00) == c as int
  {
    var v := c as int;
    if v <= 0xffff then [v]
    else [0xd800 + (v - 0x10000) / 0x400, 0xdc00 + (v - 0x10000) % 0x400]
  }

  /** h = 31 * h + u over code units, in int arithmetic, continuing from `h`. */
  function UnitsHash(h: Int32, units: seq<int>): Int32
    decreases |units|
  {
    if |units| == 0 then h else UnitsHash(Wrap32(31 * h + units[0]), units[1..])
  }

  /** String.hashCode: h = 31 * h + u over the UTF-16 code units of the string, in int arithmetic. */
  function StringHashCode(s: string): Int32
    decreases |s|
  {
    if |s| == 0 then 0 else UnitsHash(StringHashCode(s[..|s| - 1]), Utf16Units(s[|s| - 1]))
  }

  /** Objects.hashCode of a String reference. */
  function JStringHashCode(s: JString): Int32 {
    match s
    case None => 0
    case Some(v) => StringHashCode(v)
  }

  /** Objects.hash / Arrays.hashCode over the hash codes of the arguments. */
  function ObjectsHash(hs: seq<Int32>): Int32
    decreases |hs|
  {
    if |hs| == 0 then 1 else Wrap32(31 * ObjectsHash(hs[..|hs| - 1]) + hs[|hs| - 1])
  }

  /** Two different strings with one hash code: "Aa" and "BB" both hash to 2112. */
  lemma StringHashCollision()
    ensures StringHashCode("Aa") == StringHashCode("BB") == 2112
  {
    assert "Aa"[..1] == "A" && "BB"[..1] == "B";
    assert "A"[..0] == "" && "B"[..0] == "";
    BmpHashStep("", 'A');
    BmpHashStep("", 'B');
    BmpHashStep("A", 'a');
    BmpHashStep("B", 'B');
  }

  /** Appending a character of the Basic Multilingual Plane is one step h = 31 * h + c. */
  lemma BmpHashStep(s: string, c: char)
    requires c as int <= 0xffff
    ensures StringHashCode(s + [c]) == Wrap32(31 * StringHashCode(s) + c as int)
  {
    assert (s + [c])[..|s|] == s;
    assert (s + [c])[|s|] == c;
    var units := Utf16Units(c);
    assert units == [c as int];
    var h := StringHashCode(s);
    assert StringHashCode(s + [c]) == UnitsHash(h, units);
    assert units[1..] == [];
    assert UnitsHash(h, units) == UnitsHash(Wrap32(31 * h + c as int), []);
  }

  /**
   * A character above U+FFFF hashes as its two surrogates: U+1F600 hashes to
   * 31 * 0xD83D + 0xDE00 = 1772899, not to its code point 128512.
   */
  lemma StringHashSurrogatePair()
    ensures Utf16Units('\U{1F600}') == [0xd83d, 0xde00]
    ensures StringHashCode("\U{1F600}") == 1772899
  {
    assert "\U{1F600}"[..0] == "";
    assert UnitsHash(0, [0xd83d, 0xde00]) == UnitsHash(0xd83d, [0xde00]);
    assert UnitsHash(0xd83d, [0xde00]) == UnitsHash(1772899, []);
  }

  // ---------------------------------------------------------------- String.trim

  function TrimLeading(s: string): string {
    if |s| > 0 && s[0] <= ' ' then TrimLeading(s[1..]) else s
  }

  function TrimTrailing(s: string): string {
    if |s| > 0 && s[|s| - 1] <= ' ' then TrimTrailing(s[..|s| - 1]) else s
  }

  /** String.trim: drops every leading and trailing character not above U+0020. */
  function Trim(s: string): string {
    TrimTrailing(TrimLeading(s))
  }

  lemma {:induction false} TrimLeadingEmpty(s: string)
    ensures |TrimLeading(s)| == 0 <==> forall i :: 0 <= i < |s| ==> s[i] <= ' '
    ensures |TrimLeading(s)| > 0 ==> TrimLeading(s)[0] > ' '
    decreases |s|
  {
    if |s| > 0 && s[0] <= ' ' {
      TrimLeadingEmpty(s[1..]);
      assert forall i :: 1 <= i < |s| ==> s[i] == s[1..][i - 1];
    }
  }

  lemma {:induction false} TrimTrailingKeepsHead(s: string)
    requires |s| > 0 && s[0] > ' '
    ensures |TrimTrailing(s)| > 0
    decreases |s|
  {
    if s[|s| - 1] <= ' ' {
      assert |s| > 1;
      TrimTrailingKeepsHead(s[..|s| - 1]);
    }
  }

  /** trim() leaves nothing exactly when every character is at most U+0020. */
  lemma TrimEmptyIffAllSpace(s: string)
    ensures |Trim(s)| == 0 <==> forall i :: 0 <= i < |s| ==> s[i] <= ' '
  {
    TrimLeadingEmpty(s);
    if |TrimLeading(s)| > 0 {
      TrimTrailingKeepsHead(TrimLeading(s));
    }
  }

  // ---------------------------------------------------------------- String.split

  /** Every piece between separators, trailing empty pieces included. */
  function SplitAll(s: string, sep: char): (parts: seq<string>)
    ensures |parts| >= 1
    ensures forall i :: 0 <= i < |parts| ==> sep !in parts[i]
    decreases |s|
  {
    if |s| == 0 then [""]
    else
      var rest := SplitAll(s[1..], sep);
      if s[0] == sep then [""] + rest else [[s[0]] + rest[0]] + rest[1..]
  }

  function DropTrailingEmpty(parts: seq<string>): (r: seq<string>)
    ensures |r| <= |parts| && r == parts[..|r|]
    ensures |r| > 0 ==> r[|r| - 1] != ""
    decreases |parts|
  {
    if |parts| > 0 && parts[|parts| - 1] == "" then DropTrailingEmpty(parts[..|parts| - 1]) else parts
  }

  /**
   * String.split(sep) for a separator that is one ordinary character: a string
   * without the separator comes back whole (even the empty string); otherwise
   * the pieces between separators, with trailing empty pieces removed.
   */
  function Split(s: string, sep: char): (parts: seq<string>)
    ensures forall i :: 0 <= i < |parts| ==> sep !in parts[i]
    ensures sep !in s ==> parts == [s]
  {
    if sep !in s then [s] else DropTrailingEmpty(SplitAll(s, sep))
  }

  lemma {:induction false} SplitAllNoSep(s: string, sep: char)
    requires sep !in s
    ensures SplitAll(s, sep) == [s]
    decreases |s|
  {
    if |s| > 0 {
      SplitAllNoSep(s[1..], sep);
      assert [s[0]] + s[1..] == s;
    }
  }

  lemma {:induction false} SplitAllPrefix(a: string, t: string, sep: char)
    requires sep !in a
    ensures SplitAll(a + t, sep) == [a + SplitAll(t, sep)[0]] + SplitAll(t, sep)[1..]
    decreases |a|
  {
    if |a| > 0 {
      assert (a + t)[1..] == a[1..] + t;
      SplitAllPrefix(a[1..], t, sep);
      assert [a[0]] + (a[1..] + SplitAll(t, sep)[0]) == a + SplitAll(t, sep)[0];
    } else {
      var p := SplitAll(t, sep);
      assert a + t == t && a + p[0] == p[0];
      assert p == [p[0]] + p[1..];
    }
  }

  /** Splitting `a + sep + b` gives back `a` and `b` when neither holds the separator and `b` is not empty. */
  lemma SplitTwo(a: string, b: string, sep: char)
    requires sep !in a && sep !in b && b != ""
    ensures Split(a + [sep] + b, sep) == [a, b]
  {
    var s := a + [sep] + b;
    assert s[|a|] == sep;
    SplitAllNoSep(b, sep);
    assert ([sep] + b)[1..] == b;
    assert SplitAll([sep] + b, sep) == ["", b];
    assert s == a + ([sep] + b);
    SplitAllPrefix(a, [sep] + b, sep);
    assert a + "" == a;
    assert SplitAll(s, sep) == [a, b];
  }

  /** A lone separator splits into no pieces at all. */
  lemma SplitLoneSeparator(sep: char)
    ensures Split([sep], sep) == []
  {
    assert [sep][1..] == "";
    assert SplitAll([sep], sep) == ["", ""];
    assert ["", ""][..1] == [""];
  }

  // ---------------------------------------------------------------- Integer.parseInt / toString

  predicate IsDigit(c: char) {
    '0' <= c <= '9'
  }

  predicate AllDigits(s: string) {
    forall i :: 0 <= i < |s| ==> IsDigit(s[i])
  }

  function DigitValue(c: char): nat
    requires IsDigit(c)
  {
    c as int - '0' as int
  }

  function DigitChar(d: nat): (c: char)
    requires d < 10
    ensures IsDigit(c) && DigitValue(c) == d
  {
    ('0' as int + d) as char
  }

  function DigitsValue(s: string): nat
    requires AllDigits(s)
    decreases |s|
  {
    if |s| == 0 then 0 else DigitsValue(s[..|s| - 1]) * 10 + DigitValue(s[|s| - 1])
  }

  function NumberFormat(s: string): Throwable {
    Raise(NumberFormatException, "For input string: \"" + s + "\"")
  }

  /**
   * Integer.parseInt(s) in radix 10: an optional '+' or '-', then at least one
   * decimal digit, and a value that fits in an int; anything else throws
   * NumberFormatException.
   */
  function ParseInt(s: string): (r: Result<Int32, Throwable>)
    ensures r.Err? ==> r.error == NumberFormat(s)
  {
    if |s| == 0 then Err(NumberFormat(s))
    else
      var negative := s[0] == '-';
      var digits := if s[0] == '-' || s[0] == '+' then s[1..] else s;
      if |digits| == 0 || !AllDigits(digits) then Err(NumberFormat(s))
      else
        var v: int := if negative then -(DigitsValue(digits) as int) else DigitsValue(digits);
        if -0x8000_0000 <= v <= 0x7fff_ffff then Ok(v) else Err(NumberFormat(s))
  }

  function NatToString(n: nat): (s: string)
    ensures |s| >= 1 && AllDigits(s)
    decreases n
  {
    if n < 10 then [DigitChar(n)] else NatToString(n / 10) + [DigitChar(n % 10)]
  }

  /** Integer.toString(n): decimal digits, with a leading '-' when negative. */
  function IntToString(n: int): (s: string)
    ensures |s| >= 1
  {
    if n < 0 then "-" + NatToString(-n) else NatToString(n)
  }

  lemma {:induction false} DigitsOfNatToString(n: nat)
    ensures DigitsValue(NatToString(n)) == n
    decreases n
  {
    if n >= 10 {
      DigitsOfNatToString(n / 10);
      var s := NatToString(n);
      assert s[..|s| - 1] == NatToString(n / 10);
    }
  }

  /** Integer.parseInt reads back every int that Integer.toString writes. */
  lemma ParseIntOfIntToString(n: Int32)
    ensures ParseInt(IntToString(n)) == Ok(n)
  {
    var s := IntToString(n);
    if n < 0 {
      var m: nat := -(n as int);
      DigitsOfNatToString(m);
      assert s[1..] == NatToString(m);
    } else {
      DigitsOfNatToString(n);
      assert IsDigit(s[0]);
    }
  }

  /** Every character Integer.toString writes is a digit or the leading minus sign. */
  lemma IntToStringAlphabet(n: int)
    ensures forall i :: 0 <= i < |IntToString(n)| ==> IsDigit(IntToString(n)[i]) || IntToString(n)[i] == '-'
  {
  }

  // ---------------------------------------------------------------- String.equalsIgnoreCase

  function AsciiUpper(c: char): char {
    if 'a' <= c <= 'z' then (c as int - 32) as char else c
  }

  function AsciiLower(c: char): char {
    if 'A' <= c <= 'Z' then (c as int + 32) as char else c
  }

  predicate CharEqualsIgnoreCase(a: char, b: char) {
    a == b || AsciiUpper(a) == AsciiUpper(b) || AsciiLower(a) == AsciiLower(b)
  }

  /** s.equalsIgnoreCase(other): false for null, else same length and every pair of characters equal up to case. */
  predicate EqualsIgnoreCase(s: string, other: JString) {
    other.Some? && |s| == |other.value|
    && forall i :: 0 <= i < |s| ==> CharEqualsIgnoreCase(s[i], other.value[i])
  }
}
