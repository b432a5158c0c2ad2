/**
 * Values and string operations shared by the backend scripts and the browser
 * pages: optional values, JSON request members, Python/JavaScript truthiness,
 * case folding, substring search, whitespace stripping and decimal numbers.
 */
module Common {

  datatype Option<T> = None | Some(value: T)

  /** A member of a JSON request body as `dados.get(key)` sees it. */
  datatype Field = Absent | Null | Str(s: string)

  /** Python truthiness of a string-valued request member. */
  predicate Truthy(f: Field) {
    f.Str? && f.s != ""
  }

  /** The column value `dados.get(key)` stores: NULL for an absent or null member. */
  function Column(f: Field): (r: Option<string>)
    ensures r.Some? <==> f.Str?
    ensures f.Str? ==> r.value == f.s
  {
    if f.Str? then Some(f.s) else None
  }

  /** `dados.get(key, d)`: the default applies only when the key is absent. */
  function ColumnOr(f: Field, d: string): (r: Option<string>)
    ensures f.Absent? ==> r == Some(d)
    ensures !f.Absent? ==> r == Column(f)
  {
    match f
    case Absent => Some(d)
    case Null => None
    case Str(s) => Some(s)
  }

  /** Truthiness of an optional string (JavaScript and Python agree on strings). */
  predicate Present(o: Option<string>) {
    o.Some? && o.value != ""
  }

  /** JavaScript `o || d` on an optional string. */
  function OrElse(o: Option<string>, d: string): (r: string)
    ensures Present(o) ==> r == o.value
    ensures !Present(o) ==> r == d
  {
    if Present(o) then o.value else d
  }

  /** Python's `str(x)` / an f-string hole on a nullable column: NULL prints as "None". */
  function PyStr(o: Option<string>): string {
    if o.Some? then o.value else "None"
  }

  /** A JavaScript template-literal hole on a nullable JSON member: null prints as "null". */
  function JsStr(o: Option<string>): string {
    if o.Some? then o.value else "null"
  }

  // ---------------------------------------------------------------- case

  predicate IsUpperChar(c: char) {
    ('A' <= c <= 'Z') || ('À' <= c <= 'Þ' && c != '×')
  }

  predicate IsLowerChar(c: char) {
    ('a' <= c <= 'z') || ('à' <= c <= 'þ' && c != '÷')
  }

  function LowerChar(c: char): (r: char)
    ensures !IsUpperChar(r)
  {
    if IsUpperChar(c) then (c as int + 32) as char else c
  }

  function UpperChar(c: char): (r: char)
    ensures !IsLowerChar(r)
  {
    if IsLowerChar(c) then (c as int - 32) as char else c
  }

  /** A character outside the Basic Multilingual Plane: two UTF-16 code units. */
  predicate IsAstral(c: char) {
    c as int >= 0x1_0000
  }

  /** JavaScript's `s.length`: UTF-16 code units, two for each astral character. */
  function JsLength(s: string): (n: nat)
    ensures |s| <= n <= 2 * |s|
    ensures (forall i :: 0 <= i < |s| ==> !IsAstral(s[i])) ==> n == |s|
  {
    if s == [] then 0
    else
      var rest := JsLength(s[1..]);
      assert forall i :: 1 <= i < |s| ==> s[i] == s[1..][i - 1];
      (if IsAstral(s[0]) then 2 else 1) + rest
  }

  /** `toLowerCase()` / `lower()` restricted to ASCII and Latin-1 letters. */
  function Lower(s: string): (r: string)
    ensures |r| == |s|
    ensures forall i :: 0 <= i < |s| ==> r[i] == LowerChar(s[i])
  {
    if s == [] then [] else [LowerChar(s[0])] + Lower(s[1..])
  }

  /** `upper()` restricted to ASCII and Latin-1 letters. */
  function Upper(s: string): (r: string)
    ensures |r| == |s|
    ensures forall i :: 0 <= i < |s| ==> r[i] == UpperChar(s[i])
  {
    if s == [] then [] else [UpperChar(s[0])] + Upper(s[1..])
  }

  /** Case folding works character by character, so it distributes over concatenation. */
  lemma LowerAppend(a: string, b: string)
    ensures Lower(a + b) == Lower(a) + Lower(b)
  {
    var l, r := Lower(a + b), Lower(a) + Lower(b);
    forall i | 0 <= i < |l|
      ensures l[i] == r[i]
    {
      if i < |a| {
        assert (a + b)[i] == a[i];
      } else {
        assert (a + b)[i] == b[i - |a|];
      }
    }
    assert l == r;
  }

  lemma LowerIdempotent(s: string)
    ensures Lower(Lower(s)) == Lower(s)
  {
    assert forall i :: 0 <= i < |s| ==> LowerChar(LowerChar(s[i])) == LowerChar(s[i]);
  }

  // ---------------------------------------------------------------- substrings

  predicate StartsWith(s: string, p: string) {
    |p| <= |s| && s[..|p|] == p
  }

  predicate EndsWith(s: string, t: string) {
    |t| <= |s| && s[|s| - |t|..] == t
  }

  /** A string built from three parts starts with the first and ends with the last. */
  lemma ConcatEnds(head: string, mid: string, tail: string)
    ensures StartsWith(head + mid + tail, head) && EndsWith(head + mid + tail, tail)
  {
    var s := head + mid + tail;
    assert s[..|head|] == head;
    assert s[|s| - |tail|..] == tail;
  }

  /**
   * `s` reads as `head`, then `mid`, then `tail`, with nothing else: the shape
   * of a formatted message whose fixed text surrounds one varying part.
   */
  predicate Framed(s: string, head: string, mid: string, tail: string) {
    |s| == |head| + |mid| + |tail| && StartsWith(s, head)
    && s[|head|..|head| + |mid|] == mid && EndsWith(s, tail)
  }

  /** A framed reading determines the text, and the concatenation has one. */
  lemma FramedIff(s: string, head: string, mid: string, tail: string)
    ensures Framed(s, head, mid, tail) <==> s == head + mid + tail
  {
    var c := head + mid + tail;
    assert c[..|head|] == head;
    assert c[|head|..|head| + |mid|] == mid;
    assert c[|c| - |tail|..] == tail;
    if Framed(s, head, mid, tail) {
      forall i | 0 <= i < |s| ensures s[i] == c[i] {
        if i < |head| {
          assert s[..|head|][i] == s[i];
        } else if i < |head| + |mid| {
          assert s[|head|..|head| + |mid|][i - |head|] == s[i];
        } else {
          assert s[|s| - |tail|..][i - |head| - |mid|] == s[i];
        }
      }
    }
  }

  /** `t in s` (Python) / `s.includes(t)` (JavaScript). */
  predicate Contains(s: string, t: string)
    decreases |s|
  {
    StartsWith(s, t) || (|s| > 0 && Contains(s[1..], t))
  }

  ghost predicate OccursAt(s: string, t: string, i: int) {
    0 <= i && i + |t| <= |s| && s[i..i + |t|] == t
  }

  /** The search agrees with the textbook definition of a substring. */
  lemma {:induction false} ContainsIff(s: string, t: string)
    ensures Contains(s, t) <==> exists i :: OccursAt(s, t, i)
    decreases |s|
  {
    if StartsWith(s, t) {
      assert OccursAt(s, t, 0);
    } else if |s| == 0 {
      assert |t| > 0;
    } else {
      ContainsIff(s[1..], t);
      if Contains(s[1..], t) {
        var i :| OccursAt(s[1..], t, i);
        assert s[1..][i..i + |t|] == s[i + 1..i + 1 + |t|];
        assert OccursAt(s, t, i + 1);
      }
      forall i | OccursAt(s, t, i) ensures Contains(s[1..], t) {
        assert i != 0;
        assert s[1..][i - 1..i - 1 + |t|] == s[i..i + |t|];
        assert OccursAt(s[1..], t, i - 1);
      }
    }
  }

  lemma {:induction false} ContainsEmpty(s: string)
    ensures Contains(s, "")
  {
    assert StartsWith(s, "");
  }

  /** Text put in front of a string keeps every substring it has. */
  lemma {:induction false} ContainsPrepend(u: string, s: string, t: string)
    requires Contains(s, t)
    ensures Contains(u + s, t)
    decreases |u|
  {
    if u == [] {
      assert u + s == s;
    } else {
      assert (u + s)[1..] == u[1..] + s;
      ContainsPrepend(u[1..], s, t);
    }
  }

  /** Whatever occurs in a string occurs in any string that extends it on the right. */
  lemma {:induction false} ContainsAppend(s: string, u: string, t: string)
    requires Contains(s, t)
    ensures Contains(s + u, t)
    decreases |s|
  {
    if StartsWith(s, t) {
      assert (s + u)[..|t|] == s[..|t|];
    } else {
      assert (s + u)[1..] == s[1..] + u;
      ContainsAppend(s[1..], u, t);
    }
  }

  /** The index of the first occurrence of `t` in `s`, if any. */
  function FindFirst(s: string, t: string): (r: Option<nat>)
    ensures r.Some? ==> r.value + |t| <= |s| && s[r.value..r.value + |t|] == t
    ensures r.Some? ==> forall j :: 0 <= j < r.value ==> !StartsWith(s[j..], t)
    ensures r.None? ==> forall j :: 0 <= j <= |s| ==> !StartsWith(s[j..], t)
    decreases |s|
  {
    if StartsWith(s, t) then Some(0)
    else if s == [] then None
    else
      var rest := FindFirst(s[1..], t);
      assert forall j :: 1 <= j <= |s| ==> s[j..] == s[1..][j - 1..];
      if rest.Some? then Some(rest.value + 1) else None
  }

  /** An occurrence with none before it is the one the search finds. */
  lemma {:induction false} FindFirstIs(s: string, t: string, k: nat)
    requires k <= |s| && StartsWith(s[k..], t)
    requires forall j :: 0 <= j < k ==> !StartsWith(s[j..], t)
    ensures FindFirst(s, t) == Some(k)
    decreases k
  {
    if k > 0 {
      assert s[0..] == s;
      assert s[1..][k - 1..] == s[k..];
      forall j | 0 <= j < k - 1 ensures !StartsWith(s[1..][j..], t) {
        assert s[1..][j..] == s[j + 1..];
      }
      FindFirstIs(s[1..], t, k - 1);
    }
  }

  // ---------------------------------------------------------------- whitespace

  /** The ASCII whitespace both `str.strip()` and `String.prototype.trim()` remove. */
  predicate IsSpace(c: char) {
    c == ' ' || c == '\t' || c == '\n' || c == '\r' || c == '\U{000B}' || c == '\U{000C}'
  }

  function TrimLeft(s: string): (r: string)
    ensures |r| <= |s|
  {
    if s != [] && IsSpace(s[0]) then TrimLeft(s[1..]) else s
  }

  function TrimRight(s: string): (r: string)
    ensures |r| <= |s|
  {
    if s != [] && IsSpace(s[|s| - 1]) then TrimRight(s[..|s| - 1]) else s
  }

  /** `s.strip()` (Python) / `s.trim()` (JavaScript). */
  function Strip(s: string): (r: string)
    ensures r == [] || (!IsSpace(r[0]) && !IsSpace(r[|r| - 1]))
  {
    TrimLeftSpec(s);
    TrimRightSpec(TrimLeft(s));
    TrimRight(TrimLeft(s))
  }

  /** Stripping keeps a run of the string's own characters. */
  lemma StripKeepsChars(s: string)
    ensures forall i :: 0 <= i < |Strip(s)| ==> Strip(s)[i] in s
  {
    TrimLeftSpec(s);
    TrimRightSpec(TrimLeft(s));
    var l := TrimLeft(s);
    assert forall i :: 0 <= i < |Strip(s)| ==> Strip(s)[i] == l[i] == s[|s| - |l| + i];
  }

  lemma {:induction false} TrimLeftSpec(s: string)
    ensures TrimLeft(s) == s[|s| - |TrimLeft(s)|..]
    ensures TrimLeft(s) == [] || !IsSpace(TrimLeft(s)[0])
    ensures forall i :: 0 <= i < |s| - |TrimLeft(s)| ==> IsSpace(s[i])
  {
    if s != [] && IsSpace(s[0]) {
      TrimLeftSpec(s[1..]);
    }
  }

  lemma {:induction false} TrimRightSpec(s: string)
    ensures TrimRight(s) == s[..|TrimRight(s)|]
    ensures TrimRight(s) == [] || !IsSpace(TrimRight(s)[|TrimRight(s)| - 1])
    ensures forall i :: |TrimRight(s)| <= i < |s| ==> IsSpace(s[i])
  {
    if s != [] && IsSpace(s[|s| - 1]) {
      TrimRightSpec(s[..|s| - 1]);
    }
  }

  lemma StripIdempotent(s: string)
    ensures Strip(Strip(s)) == Strip(s)
  {
  }

  // ---------------------------------------------------------------- numbers

  predicate IsDigit(c: char) {
    '0' <= c <= '9'
  }

  predicate AllDigits(s: string) {
    forall i :: 0 <= i < |s| ==> IsDigit(s[i])
  }

  function DigitChar(d: nat): (c: char)
    requires d < 10
    ensures IsDigit(c) && (c as int) - ('0' as int) == d
  {
    (d + '0' as int) as char
  }

  /** Python's `str(n)` / JavaScript's `String(n)` on a natural number. */
  function NatToString(n: nat): (r: string)
    ensures r != [] && AllDigits(r)
    decreases n
  {
    if n < 10 then [DigitChar(n)] else NatToString(n / 10) + [DigitChar(n % 10)]
  }

  function IntToString(i: int): (r: string)
    ensures r != []
  {
    if i < 0 then "-" + NatToString(-i) else NatToString(i)
  }

  /** The value of a string of decimal digits. */
  function DigitsValue(s: string): nat
    requires AllDigits(s)
  {
    if s == [] then 0
    else DigitsValue(s[..|s| - 1]) * 10 + ((s[|s| - 1] as int) - ('0' as int))
  }

  lemma {:induction false} DigitsValueOfNatToString(n: nat)
    ensures DigitsValue(NatToString(n)) == n
    decreases n
  {
    if n >= 10 {
      var s := NatToString(n);
      assert s[..|s| - 1] == NatToString(n / 10);
      DigitsValueOfNatToString(n / 10);
    }
  }

  /**
   * Python's digit part: a digit, then digits each of which may follow one
   * underscore ("1_000"), so no underscore leads, trails or doubles.
   */
  predicate PyDigits(s: string)
    decreases |s|
  {
    s != [] && IsDigit(s[0]) && (|s| == 1 || if s[1] == '_' then PyDigits(s[2..]) else PyDigits(s[1..]))
  }

  /** The value of a digit part: underscores are skipped. */
  function PyDigitsValue(s: string): nat
    decreases |s|
  {
    if s == [] then 0
    else
      var last := s[|s| - 1];
      if last == '_' then PyDigitsValue(s[..|s| - 1])
      else PyDigitsValue(s[..|s| - 1]) * 10 + (if IsDigit(last) then (last as int) - ('0' as int) else 0)
  }

  lemma {:induction false} AllDigitsArePyDigits(s: string)
    requires s != [] && AllDigits(s)
    ensures PyDigits(s)
    decreases |s|
  {
    if |s| > 1 {
      assert IsDigit(s[1]);
      assert forall i :: 0 <= i < |s| - 1 ==> s[1..][i] == s[i + 1];
      AllDigitsArePyDigits(s[1..]);
    }
  }

  lemma {:induction false} PyDigitsValueOfDigits(s: string)
    requires AllDigits(s)
    ensures PyDigitsValue(s) == DigitsValue(s)
    decreases |s|
  {
    if s != [] {
      assert IsDigit(s[|s| - 1]);
      PyDigitsValueOfDigits(s[..|s| - 1]);
    }
  }

  /** A plain run of digits is a literal Python reads with its own value. */
  lemma PyDigitsOfAllDigits(s: string)
    requires s != [] && AllDigits(s)
    ensures PyDigits(s) && PyDigitsValue(s) == DigitsValue(s)
  {
    AllDigitsArePyDigits(s);
    PyDigitsValueOfDigits(s);
  }

  /**
   * Python's `int(text)` on a decimal literal: surrounding whitespace, an
   * optional sign and ASCII digits with single underscores between them;
   * None where `int` raises ValueError. Digits of other scripts, which `int`
   * also accepts, are not.
   */
  function ParseInt(text: string): (r: Option<int>)
    ensures r.Some? ==> Strip(text) != []
  {
    var t := Strip(text);
    if t == [] then None
    else if t[0] == '-' || t[0] == '+' then
      var digits := t[1..];
      if PyDigits(digits) then
        Some(if t[0] == '-' then -(PyDigitsValue(digits) as int) else PyDigitsValue(digits))
      else None
    else if PyDigits(t) then Some(PyDigitsValue(t))
    else None
  }

  lemma StripKeepsTrimmed(s: string)
    requires s != [] && !IsSpace(s[0]) && !IsSpace(s[|s| - 1])
    ensures Strip(s) == s
  {
    assert TrimLeft(s) == s;
  }

  /** A non-negative integer, printed as plain digits, reads back as itself. */
  lemma ParseIntOfNonNegative(i: int)
    requires i >= 0
    ensures ParseInt(IntToString(i)) == Some(i)
  {
    var n := NatToString(i);
    assert IsDigit(n[0]) && IsDigit(n[|n| - 1]);
    StripKeepsTrimmed(n);
    PyDigitsOfAllDigits(n);
    DigitsValueOfNatToString(i);
  }

  /** A negative integer, printed as '-' and its magnitude, reads back as itself. */
  lemma ParseIntOfNegative(i: int)
    requires i < 0
    ensures ParseInt(IntToString(i)) == Some(i)
  {
    var n := NatToString(-i);
    var s := "-" + n;
    assert IntToString(i) == s;
    assert s[0] == '-' && s[1..] == n && IsDigit(s[|s| - 1]);
    StripKeepsTrimmed(s);
    PyDigitsOfAllDigits(n);
    DigitsValueOfNatToString(-i);
    ParseIntOfSigned(s);
  }

  /** A stripped text of '-' and a digit part reads as the negated value of the digits. */
  lemma ParseIntOfSigned(s: string)
    requires s != [] && s[0] == '-' && Strip(s) == s && PyDigits(s[1..])
    ensures ParseInt(s) == Some(-(PyDigitsValue(s[1..]) as int))
  {
  }

  /** Every integer the CLI prints back is read again as the same integer. */
  lemma ParseIntRoundTrip(i: int)
    ensures ParseInt(IntToString(i)) == Some(i)
  {
    if i < 0 {
      ParseIntOfNegative(i);
    } else {
      ParseIntOfNonNegative(i);
    }
  }

  /** An underscore between digits is a separator: "1_0" reads as 10. */
  lemma UnderscoreSeparatesDigits()
    ensures ParseInt("1_0") == Some(10)
  {
    StripKeepsTrimmed("1_0");
    assert PyDigits("1_0") by {
      assert "1_0"[1] == '_' && "1_0"[2..] == "0";
      assert PyDigits("0");
    }
    assert PyDigitsValue("1_0") == 10 by {
      assert "1_0"[..2] == "1_" && "1_"[..1] == "1" && "1"[..0] == "";
    }
  }

  // ---------------------------------------------------------------- sequences

  /** `a` is an order-preserving sub-list of `b`. */
  predicate SubseqOf<T(==)>(a: seq<T>, b: seq<T>)
    decreases |b|
  {
    if a == [] then true
    else if b == [] then false
    else if a[0] == b[0] then SubseqOf(a[1..], b[1..])
    else SubseqOf(a, b[1..])
  }

  /** `Array.prototype.filter` / a list comprehension with a condition. */
  function Filter<T(!new)>(s: seq<T>, keep: T -> bool): (r: seq<T>)
    ensures |r| <= |s|
    ensures forall x :: x in r <==> x in s && keep(x)
  {
    if s == [] then []
    else (if keep(s[0]) then [s[0]] else []) + Filter(s[1..], keep)
  }

  lemma {:induction false} FilterIsSubseq<T(!new)>(s: seq<T>, keep: T -> bool)
    ensures SubseqOf(Filter(s, keep), s)
  {
    if s != [] {
      FilterIsSubseq(s[1..], keep);
      var r := Filter(s[1..], keep);
      if keep(s[0]) {
        var a := [s[0]] + r;
        assert Filter(s, keep) == a;
        assert a != [] && a[0] == s[0] && a[1..] == r;
        assert SubseqOf(a, s);
      } else {
        assert Filter(s, keep) == [] + r == r;
        SkipHeadSubseq(r, s);
      }
    }
  }

  lemma {:induction false} SkipHeadSubseq<T>(r: seq<T>, s: seq<T>)
    requires s != [] && SubseqOf(r, s[1..])
    ensures SubseqOf(r, s)
    decreases |s|
  {
    if r != [] && r[0] == s[0] {
      SubseqTail(r, s[1..]);
      SkipHeadSubseq(r[1..], s[1..]);
    }
  }

  lemma {:induction false} SubseqTail<T>(r: seq<T>, s: seq<T>)
    requires r != [] && SubseqOf(r, s)
    ensures SubseqOf(r[1..], s[1..])
    decreases |s|
  {
    if r[0] != s[0] {
      SubseqTail(r, s[1..]);
      SkipHeadSubseq(r[1..], s[1..]);
    }
  }

  /** Filtering with a predicate that holds everywhere returns the list unchanged. */
  lemma {:induction false} FilterKeepsAll<T(!new)>(s: seq<T>, keep: T -> bool)
    requires forall x :: x in s ==> keep(x)
    ensures Filter(s, keep) == s
  {
    if s != [] {
      FilterKeepsAll(s[1..], keep);
    }
  }

  /** Two conditions that agree on every element filter alike. */
  lemma {:induction false} FilterSame<T(!new)>(s: seq<T>, p: T -> bool, q: T -> bool)
    requires forall x :: x in s ==> p(x) == q(x)
    ensures Filter(s, p) == Filter(s, q)
  {
    if s != [] {
      FilterSame(s[1..], p, q);
    }
  }

  /** `list.filter(p).length`. */
  function Count<T>(s: seq<T>, p: T -> bool): (n: nat)
    ensures n <= |s|
  {
    if s == [] then 0 else (if p(s[0]) then 1 else 0) + Count(s[1..], p)
  }

  lemma {:induction false} CountIsFilterLength<T(!new)>(s: seq<T>, p: T -> bool)
    ensures Count(s, p) == |Filter(s, p)|
  {
    if s != [] {
      CountIsFilterLength(s[1..], p);
    }
  }

  /** Two conditions that never hold together count at most the whole list. */
  lemma {:induction false} CountDisjoint<T>(s: seq<T>, p: T -> bool, q: T -> bool)
    requires forall x :: !(p(x) && q(x))
    ensures Count(s, p) + Count(s, q) <= |s|
  {
    if s != [] {
      CountDisjoint(s[1..], p, q);
    }
  }

  /** A condition and its negation split the list. */
  lemma {:induction false} CountComplement<T>(s: seq<T>, p: T -> bool, q: T -> bool)
    requires forall x :: q(x) == !p(x)
    ensures Count(s, p) + Count(s, q) == |s|
  {
    if s != [] {
      CountComplement(s[1..], p, q);
    }
  }

  /** The elements whose label `f` gives is `b`. */
  function LabelIs<T>(f: T -> string, b: string): T -> bool {
    x => f(x) == b
  }

  /** When every element carries one of four distinct labels, the four counts add up to the list. */
  lemma {:induction false} CountLabels<T>(s: seq<T>, f: T -> string, l0: string, l1: string, l2: string, l3: string)
    requires l0 != l1 && l0 != l2 && l0 != l3 && l1 != l2 && l1 != l3 && l2 != l3
    requires forall x :: x in s ==> f(x) in [l0, l1, l2, l3]
    ensures Count(s, LabelIs(f, l0)) + Count(s, LabelIs(f, l1)) + Count(s, LabelIs(f, l2))
      + Count(s, LabelIs(f, l3)) == |s|
  {
    if s != [] {
      assert s[0] in s;
      assert forall x :: x in s[1..] ==> x in s;
      CountLabels(s[1..], f, l0, l1, l2, l3);
    }
  }

  /** A list with an element satisfying `p` counts at least one. */
  lemma {:induction false} CountPositive<T>(s: seq<T>, p: T -> bool, k: nat)
    requires k < |s| && p(s[k])
    ensures Count(s, p) > 0
  {
    if k > 0 {
      CountPositive(s[1..], p, k - 1);
    }
  }

  lemma {:induction false} CountAppend<T>(s: seq<T>, t: seq<T>, p: T -> bool)
    ensures Count(s + t, p) == Count(s, p) + Count(t, p)
  {
    if s == [] {
      assert s + t == t;
    } else {
      assert (s + t)[0] == s[0] && (s + t)[1..] == s[1..] + t;
      assert Count(s + t, p) == (if p(s[0]) then 1 else 0) + Count(s[1..] + t, p);
      CountAppend(s[1..], t, p);
    }
  }

  /** Extending a prefix by one element adds that element's own vote. */
  lemma CountPrefixStep<T>(s: seq<T>, i: nat, p: T -> bool)
    requires i < |s|
    ensures Count(s[..i + 1], p) == Count(s[..i], p) + if p(s[i]) then 1 else 0
  {
    assert s[..i + 1] == s[..i] + [s[i]];
    CountAppend(s[..i], [s[i]], p);
  }

  /** A weaker condition counts at least as many elements. */
  lemma {:induction false} CountMono<T>(s: seq<T>, p: T -> bool, q: T -> bool)
    requires forall x :: p(x) ==> q(x)
    ensures Count(s, p) <= Count(s, q)
  {
    if s != [] {
      CountMono(s[1..], p, q);
    }
  }

  /** The sum of a list of counters. */
  function Sum(s: seq<nat>): nat {
    if s == [] then 0 else s[0] + Sum(s[1..])
  }

  // ---------------------------------------------------------------- keyword classifiers

  /** A keyword group of an `if ... in text or ... in text` chain and the bucket it yields. */
  datatype Group = Group(keys: seq<string>, bucket: string)

  /** Some keyword of the group occurs in the text. */
  predicate MatchesAny(text: string, keys: seq<string>) {
    exists k :: k in keys && Contains(text, k)
  }

  /** The index of the first group, from `i` on, with a keyword in `text`. */
  function FirstMatchingFrom(text: string, groups: seq<Group>, i: nat): (r: Option<nat>)
    requires i <= |groups|
    ensures r.Some? ==> i <= r.value < |groups| && MatchesAny(text, groups[r.value].keys)
    ensures r.Some? ==> forall j :: i <= j < r.value ==> !MatchesAny(text, groups[j].keys)
    ensures r.None? <==> forall j :: i <= j < |groups| ==> !MatchesAny(text, groups[j].keys)
    decreases |groups| - i
  {
    if i == |groups| then None
    else if MatchesAny(text, groups[i].keys) then Some(i)
    else FirstMatchingFrom(text, groups, i + 1)
  }

  lemma MatchesTwo(text: string, a: string, b: string)
    ensures MatchesAny(text, [a, b]) <==> Contains(text, a) || Contains(text, b)
  {
    if Contains(text, a) { assert a in [a, b]; }
    if Contains(text, b) { assert b in [a, b]; }
  }

  lemma MatchesThree(text: string, a: string, b: string, c: string)
    ensures MatchesAny(text, [a, b, c]) <==> Contains(text, a) || Contains(text, b) || Contains(text, c)
  {
    if Contains(text, a) { assert a in [a, b, c]; }
    if Contains(text, b) { assert b in [a, b, c]; }
    if Contains(text, c) { assert c in [a, b, c]; }
  }

  lemma MatchesFour(text: string, a: string, b: string, c: string, d: string)
    ensures MatchesAny(text, [a, b, c, d])
        <==> Contains(text, a) || Contains(text, b) || Contains(text, c) || Contains(text, d)
  {
    if Contains(text, a) { assert a in [a, b, c, d]; }
    if Contains(text, b) { assert b in [a, b, c, d]; }
    if Contains(text, c) { assert c in [a, b, c, d]; }
    if Contains(text, d) { assert d in [a, b, c, d]; }
  }

  /** First match wins; `fallback` when no group matches. */
  function Classify(text: string, groups: seq<Group>, fallback: string): (r: string)
    ensures r == fallback || exists j :: 0 <= j < |groups| && r == groups[j].bucket
  {
    var i := FirstMatchingFrom(text, groups, 0);
    if i.Some? then groups[i.value].bucket else fallback
  }
}
