/** The JavaScript string built-ins the service relies on (`trim`, `toLowerCase`,
    `includes`, `endsWith`, `length`, `Array.prototype.join`), over Dafny strings.
    A Dafny `char` is a Unicode scalar value, i.e. one code point. */
module JsString {

  /** The characters `String.prototype.trim` removes: the WhiteSpace and
      LineTerminator productions of ECMA-262 (every `Zs` space separator,
      tab, vertical tab, form feed, the byte order mark, LF, CR, LS and PS). */
  predicate IsWhitespace(c: char) {
    c == '\t' || c == '\n' || c == '\U{B}' || c == '\U{C}' || c == '\r'
    || c == ' ' || c == '\U{A0}' || c == '\U{1680}'
    || ('\U{2000}' <= c <= '\U{200A}')
    || c == '\U{2028}' || c == '\U{2029}' || c == '\U{202F}' || c == '\U{205F}'
    || c == '\U{3000}' || c == '\U{FEFF}'
  }

  predicate AllWhitespace(s: string) {
    forall i | 0 <= i < |s| :: IsWhitespace(s[i])
  }

  /** Neither the first nor the last character is whitespace. */
  predicate NoEdgeWhitespace(s: string) {
    s == [] || (!IsWhitespace(s[0]) && !IsWhitespace(s[|s| - 1]))
  }

  /** Drops the leading whitespace: the result is the longest suffix that does not start with whitespace. */
  function TrimStart(s: string): (r: string)
    ensures |r| <= |s| && r == s[|s| - |r|..]
    ensures AllWhitespace(s[..|s| - |r|])
    ensures r == [] || !IsWhitespace(r[0])
  {
    if s != [] && IsWhitespace(s[0]) then
      var r := TrimStart(s[1..]);
      assert forall i | 1 <= i < |s| - |r| :: s[i] == s[1..][i - 1];
      r
    else s
  }

  /** Drops the trailing whitespace: the result is the longest prefix that does not end with whitespace. */
  function TrimEnd(s: string): (r: string)
    ensures |r| <= |s| && r == s[..|r|]
    ensures AllWhitespace(s[|r|..])
    ensures r == [] || !IsWhitespace(r[|r| - 1])
  {
    if s != [] && IsWhitespace(s[|s| - 1]) then TrimEnd(s[..|s| - 1]) else s
  }

  /** `String.prototype.trim`: leading and trailing whitespace removed. */
  function Trim(s: string): (r: string)
    ensures NoEdgeWhitespace(r)
  {
    var front := TrimStart(s);
    assert |TrimEnd(front)| > 0 ==> TrimEnd(front)[0] == front[0];
    TrimEnd(front)
  }

  /** What Trim leaves is an infix of its input with whitespace margins on
      both sides; it starts where TrimStart's result starts. */
  lemma TrimIsInfix(s: string)
    ensures var k := |s| - |TrimStart(s)|;
      k + |Trim(s)| <= |s| && Trim(s) <= s[k..] && AllWhitespace(s[..k]) && AllWhitespace(s[k + |Trim(s)|..])
  {
    var front := TrimStart(s);
    var k := |s| - |front|;
    DropDrop(s, k, |Trim(s)|);
  }

  lemma DropDrop(s: string, k: nat, n: nat)
    requires k + n <= |s|
    ensures s[k + n..] == s[k..][n..]
  {
  }

  lemma {:induction false} TrimEndOfWhitespaceTail(m: string, b: string)
    requires m == [] || !IsWhitespace(m[|m| - 1])
    requires AllWhitespace(b)
    ensures TrimEnd(m + b) == m
    decreases |b|
  {
    if b == [] {
      assert m + b == m;
    } else {
      var b' := b[..|b| - 1];
      assert (m + b)[..|m + b| - 1] == m + b';
      TrimEndOfWhitespaceTail(m, b');
    }
  }

  lemma {:induction false} TrimStartOfWhitespaceHead(a: string, m: string)
    requires m == [] || !IsWhitespace(m[0])
    requires AllWhitespace(a)
    ensures TrimStart(a + m) == m
    decreases |a|
  {
    if a == [] {
      assert a + m == m;
    } else {
      assert (a + m)[1..] == a[1..] + m;
      TrimStartOfWhitespaceHead(a[1..], m);
    }
  }

  /** Trim is characterised by its margins: whatever whitespace surrounds a
      string without whitespace at its edges is exactly what is removed. */
  lemma {:induction false} TrimOfMargins(a: string, m: string, b: string)
    requires AllWhitespace(a) && AllWhitespace(b) && NoEdgeWhitespace(m)
    ensures Trim(a + m + b) == m
  {
    if m == [] {
      assert a + m + b == a + b;
      TrimStartOfWhitespaceHead(a + b, []);
      assert a + b + [] == a + b;
      assert TrimStart(a + b) == [];
      assert TrimEnd([]) == [];
    } else {
      assert a + m + b == a + (m + b);
      TrimStartOfWhitespaceHead(a, m + b);
      TrimEndOfWhitespaceTail(m, b);
    }
  }

  /** A string without whitespace at its edges is left unchanged by Trim. */
  lemma TrimOfTrimmed(s: string)
    requires NoEdgeWhitespace(s)
    ensures Trim(s) == s
  {
    assert [] + s + [] == s;
    TrimOfMargins([], s, []);
  }

  lemma TrimIdempotent(s: string)
    ensures Trim(Trim(s)) == Trim(s)
  {
    TrimOfTrimmed(Trim(s));
  }

  /** Trim leaves nothing exactly when the input is all whitespace. */
  lemma TrimEmptyIff(s: string)
    ensures Trim(s) == [] <==> AllWhitespace(s)
  {
    if AllWhitespace(s) {
      assert s + [] + [] == s;
      TrimOfMargins(s, [], []);
    }
  }

  /** `String.prototype.toLowerCase`, taken as a per-code-point mapping `lower`
      (which may map one code point to several). */
  function Lower(lower: char -> string, s: string): string {
    if s == [] then [] else lower(s[0]) + Lower(lower, s[1..])
  }

  /** Lower-casing distributes over concatenation. */
  lemma {:induction false} LowerConcat(lower: char -> string, a: string, b: string)
    ensures Lower(lower, a + b) == Lower(lower, a) + Lower(lower, b)
  {
    if a != [] {
      assert (a + b)[1..] == a[1..] + b;
      LowerConcat(lower, a[1..], b);
    } else {
      assert a + b == b;
    }
  }

  /** `String.prototype.includes`: `t` occurs in `s` at some position. */
  predicate Includes(s: string, t: string) {
    exists i | 0 <= i <= |s| :: OccursAt(s, t, i)
  }

  /** `t` stands in `s` from position `i` on. */
  predicate OccursAt(s: string, t: string, i: int)
    requires 0 <= i <= |s|
  {
    t <= s[i..]
  }

  lemma IncludesInfix(a: string, t: string, b: string)
    ensures Includes(a + t + b, t)
  {
    var s := a + t + b;
    assert s[|a|..] == t + b;
    assert OccursAt(s, t, |a|);
  }

  lemma IncludesSuffix(a: string, t: string)
    ensures Includes(a + t, t)
  {
    assert (a + t)[|a|..] == t;
    assert OccursAt(a + t, t, |a|);
  }

  /** Lower-casing keeps a suffix found. */
  lemma IncludesLowered(lower: char -> string, a: string, t: string)
    ensures Includes(Lower(lower, a + t), Lower(lower, t))
  {
    LowerConcat(lower, a, t);
    IncludesSuffix(Lower(lower, a), Lower(lower, t));
  }

  /** `String.prototype.endsWith`. */
  predicate EndsWith(s: string, t: string) {
    |t| <= |s| && s[|s| - |t|..] == t
  }

  lemma EndsWithConcat(a: string, t: string)
    ensures EndsWith(a + t, t)
  {
    assert (a + t)[|a|..] == t;
  }

  /** Putting something in front keeps a suffix. */
  lemma EndsWithAfter(a: string, s: string, t: string)
    requires EndsWith(s, t)
    ensures EndsWith(a + s, t)
  {
    assert (a + s)[|a + s| - |t|..] == s[|s| - |t|..];
  }

  lemma ConcatRegroup(a: string, b: string, c: string, d: string)
    ensures a + (b + (c + d)) == a + (b + c) + d
  {
  }

  /** A prefix of `s` stays a prefix after `a` in front and `t` behind. */
  lemma PrefixInConcat(a: string, p: string, s: string, t: string)
    requires p <= s
    ensures a + p <= a + (s + t)
  {
    var whole := a + (s + t);
    forall i | 0 <= i < |a + p| ensures (a + p)[i] == whole[i] {
      if i >= |a| {
        assert (a + p)[i] == p[i - |a|] == s[i - |a|];
      }
    }
  }

  /** The number of UTF-16 code units of a code point. */
  function Utf16Units(c: char): nat {
    if c as int >= 0x1_0000 then 2 else 1
  }

  /** `length` of a JavaScript string: the number of UTF-16 code units. */
  function Utf16Length(s: string): (n: nat)
    ensures |s| <= n <= 2 * |s|
    ensures (forall i | 0 <= i < |s| :: s[i] as int < 0x1_0000) ==> n == |s|
  {
    if s == [] then 0 else Utf16Units(s[0]) + Utf16Length(s[1..])
  }

  /** `Array.prototype.join` over strings. */
  function Join(parts: seq<string>, sep: string): string {
    if |parts| == 0 then ""
    else if |parts| == 1 then parts[0]
    else parts[0] + sep + Join(parts[1..], sep)
  }

  /** The last part of a join stands at its end, after the separator. */
  lemma {:induction false} JoinLast(parts: seq<string>, sep: string)
    requires |parts| >= 2
    ensures Join(parts, sep) == Join(parts[..|parts| - 1], sep) + sep + parts[|parts| - 1]
  {
    if |parts| > 2 {
      JoinLast(parts[1..], sep);
      assert parts[1..][..|parts| - 2] == parts[..|parts| - 1][1..];
      assert parts[1..][|parts| - 2] == parts[|parts| - 1];
    }
  }
}
