/** The string operations the store applies to user input and to its keys:
    Python's `str.strip()` and `str.upper()`, the ordering SQLite's BINARY
    collation gives to text, decimal rendering of integers, and the
    case-insensitive containment test behind `contains`. */
module Text {
  import opened Util

  // ---------------------------------------------------------------------------
  // strip()

  /** The characters `str.isspace()` accepts, which `str.strip()` removes. */
  predicate IsSpace(c: char) {
    || c == ' ' || ('\t' <= c <= '\r') || ('\U{1c}' <= c <= '\U{1f}')
    || c == '\U{85}' || c == '\U{a0}' || c == '\U{1680}'
    || ('\U{2000}' <= c <= '\U{200a}') || c == '\U{2028}' || c == '\U{2029}'
    || c == '\U{202f}' || c == '\U{205f}' || c == '\U{3000}'
  }

  function TrimStart(s: string): (r: string)
    ensures |r| <= |s| && r == s[|s| - |r|..]
    ensures r == [] || !IsSpace(r[0])
    ensures forall k :: 0 <= k < |s| - |r| ==> IsSpace(s[k])
  {
    if s != [] && IsSpace(s[0]) then TrimStart(s[1..]) else s
  }

  function TrimEnd(s: string): (r: string)
    ensures |r| <= |s| && r == s[..|r|]
    ensures r == [] || !IsSpace(r[|r| - 1])
    ensures forall k :: |r| <= k < |s| ==> IsSpace(s[k])
  {
    if s != [] && IsSpace(s[|s| - 1]) then TrimEnd(s[..|s| - 1]) else s
  }

  /** `s.strip()`. */
  function Strip(s: string): string {
    TrimEnd(TrimStart(s))
  }

  predicate NoEdgeSpace(s: string) {
    s == [] || (!IsSpace(s[0]) && !IsSpace(s[|s| - 1]))
  }

  /** strip() leaves no space at either end. */
  lemma StripSpec(s: string)
    ensures NoEdgeSpace(Strip(s))
  {
    var t := TrimStart(s);
    var r := TrimEnd(t);
    if r != [] {
      assert r[0] == t[0];
    }
  }

  lemma StripOfUnpadded(s: string)
    requires NoEdgeSpace(s)
    ensures Strip(s) == s
  {
  }

  lemma StripIdempotent(s: string)
    ensures Strip(Strip(s)) == Strip(s)
  {
    StripSpec(s);
    StripOfUnpadded(Strip(s));
  }

  // ---------------------------------------------------------------------------
  // upper()

  /** Upper case of one character: ASCII letters and U+00E0-U+00FE without
      U+00F7, which covers the Spanish alphabet. The other lower-case letters
      Python maps (among them U+00DF to "SS", U+00FF, U+00B5) are kept. */
  function UpperChar(c: char): (u: char)
    ensures IsSpace(u) <==> IsSpace(c)
  {
    if 'a' <= c <= 'z' then (c as int - 32) as char
    else if '\U{e0}' <= c <= '\U{fe}' && c != '\U{f7}' then (c as int - 32) as char
    else c
  }

  /** `s.upper()`: one character for one character. */
  function Upper(s: string): (r: string)
    ensures |r| == |s|
    ensures forall i :: 0 <= i < |s| ==> r[i] == UpperChar(s[i])
  {
    if s == [] then [] else [UpperChar(s[0])] + Upper(s[1..])
  }

  lemma {:induction false} UpperIdempotent(s: string)
    ensures Upper(Upper(s)) == Upper(s)
  {
    var u := Upper(s);
    var uu := Upper(u);
    forall i | 0 <= i < |s| ensures uu[i] == u[i] {
      assert uu[i] == UpperChar(UpperChar(s[i]));
    }
  }

  /** `s.strip().upper()`, the normalisation every manager applies to names,
      codes and labels before storing them. */
  function Normalize(s: string): string {
    Upper(Strip(s))
  }

  /** `v.strip().upper() if v else None`: a missing or empty text is stored
      as NULL, any other text normalised. */
  function NormalizeOrNull(v: Option<string>): Option<string> {
    if v.Some? && v.value != "" then Some(Normalize(v.value)) else None
  }

  /** `v.strip() if v else None`, the rule actualizar_estudiante applies to
      every field it is given. */
  function StripOrNull(v: Option<string>): Option<string> {
    if v.Some? && v.value != "" then Some(Strip(v.value)) else None
  }

  /** Normalising twice is normalising once: a stored code compared with a
      normalised query behaves as the query normalised once. */
  lemma NormalizeIdempotent(s: string)
    ensures Normalize(Normalize(s)) == Normalize(s)
  {
    var t := Strip(s);
    StripSpec(s);
    var u := Upper(t);
    assert NoEdgeSpace(u);
    StripOfUnpadded(u);
    UpperIdempotent(t);
  }

  // ---------------------------------------------------------------------------
  // Ordering of text (SQLite BINARY collation: code point by code point)

  predicate StrLe(a: string, b: string) {
    if a == [] then true
    else if b == [] then false
    else if a[0] != b[0] then a[0] < b[0]
    else StrLe(a[1..], b[1..])
  }

  lemma {:induction false} StrLeTotal(a: string, b: string)
    ensures StrLe(a, b) || StrLe(b, a)
  {
    if a != [] && b != [] && a[0] == b[0] {
      StrLeTotal(a[1..], b[1..]);
    }
  }

  lemma {:induction false} StrLeTransitive(a: string, b: string, c: string)
    requires StrLe(a, b) && StrLe(b, c)
    ensures StrLe(a, c)
  {
    if a != [] && b != [] && c != [] && a[0] == b[0] && b[0] == c[0] {
      StrLeTransitive(a[1..], b[1..], c[1..]);
    }
  }

  lemma {:induction false} StrLeAntisymmetric(a: string, b: string)
    requires StrLe(a, b) && StrLe(b, a)
    ensures a == b
  {
    if a != [] && b != [] {
      StrLeAntisymmetric(a[1..], b[1..]);
      assert a == [a[0]] + a[1..];
      assert b == [b[0]] + b[1..];
    }
  }

  lemma StrLeIsTotalOrder()
    ensures TotalPreorder(StrLe)
    ensures Antisymmetric(StrLe)
  {
    forall a, b ensures StrLe(a, b) || StrLe(b, a) {
      StrLeTotal(a, b);
    }
    forall a, b, c | StrLe(a, b) && StrLe(b, c) ensures StrLe(a, c) {
      StrLeTransitive(a, b, c);
    }
    forall a, b | StrLe(a, b) && StrLe(b, a) ensures a == b {
      StrLeAntisymmetric(a, b);
    }
  }

  /** NULL sorts before every text, as in SQLite's ascending order. */
  predicate OptStrLe(a: Option<string>, b: Option<string>) {
    a.None? || (b.Some? && StrLe(a.value, b.value))
  }

  lemma OptStrLeIsTotalOrder()
    ensures TotalPreorder(OptStrLe)
    ensures Antisymmetric(OptStrLe)
  {
    StrLeIsTotalOrder();
  }

  // ---------------------------------------------------------------------------
  // Decimal rendering of integers (f"{n}")

  function DigitChar(d: nat): (c: char)
    requires d < 10
    ensures c != '-'
  {
    "0123456789"[d]
  }

  function NatToString(n: nat): (r: string)
    ensures |r| >= 1
    ensures n >= 10 ==> |r| >= 2
    ensures forall i :: 0 <= i < |r| ==> r[i] != '-'
  {
    if n < 10 then [DigitChar(n)] else NatToString(n / 10) + [DigitChar(n % 10)]
  }

  function IntToString(i: int): string {
    if i < 0 then "-" + NatToString(-i) else NatToString(i)
  }

  /** The text starts with a minus sign exactly for negative numbers. */
  lemma IntToStringSign(i: int)
    ensures |IntToString(i)| >= 1
    ensures IntToString(i)[0] == '-' <==> i < 0
  {
    if i >= 0 {
      assert NatToString(i)[0] != '-';
    }
  }

  lemma {:induction false} NatToStringInjective(a: nat, b: nat)
    requires NatToString(a) == NatToString(b)
    ensures a == b
  {
    var s := NatToString(a);
    if a >= 10 && b >= 10 {
      var pa := NatToString(a / 10);
      var pb := NatToString(b / 10);
      assert s[..|s| - 1] == pa && s[..|s| - 1] == pb;
      NatToStringInjective(a / 10, b / 10);
      assert "0123456789"[a % 10] == "0123456789"[b % 10];
    } else if a < 10 && b < 10 {
      assert "0123456789"[a] == "0123456789"[b];
    }
  }

  /** Distinct numbers render as distinct text, so keys such as "lab_3" or
      "Grupo 2" built from distinct numbers never collide. */
  lemma IntToStringInjective(a: int, b: int)
    requires IntToString(a) == IntToString(b)
    ensures a == b
  {
    IntToStringSign(a);
    IntToStringSign(b);
    if a < 0 && b < 0 {
      assert NatToString(-a) == IntToString(a)[1..];
      NatToStringInjective(-a, -b);
    } else if a >= 0 && b >= 0 {
      NatToStringInjective(a, b);
    }
  }

  lemma PrefixedIntInjective(p: string, a: int, b: int)
    requires p + IntToString(a) == p + IntToString(b)
    ensures a == b
  {
    assert IntToString(a) == (p + IntToString(a))[|p|..];
    assert IntToString(b) == (p + IntToString(b))[|p|..];
    IntToStringInjective(a, b);
  }

  // ---------------------------------------------------------------------------
  // Case-insensitive containment (SQLite LIKE '%term%', ASCII-only folding)

  function FoldAscii(s: string): (r: string)
    ensures |r| == |s|
    ensures forall i :: 0 <= i < |s| ==> r[i] == if 'a' <= s[i] <= 'z' then (s[i] as int - 32) as char else s[i]
  {
    if s == [] then []
    else [if 'a' <= s[0] <= 'z' then (s[0] as int - 32) as char else s[0]] + FoldAscii(s[1..])
  }

  predicate OccursAt(s: string, t: string, i: nat) {
    i + |t| <= |s| && s[i..i + |t|] == t
  }

  predicate Contains(s: string, t: string) {
    exists i: nat :: i <= |s| && OccursAt(s, t, i)
  }

  predicate ContainsIgnoringCase(s: string, t: string) {
    Contains(FoldAscii(s), FoldAscii(t))
  }
}
