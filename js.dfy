/** JavaScript string semantics the handlers and pages rely on: the `\s`
    character class and `trim`, ASCII case mapping, `split` on one character,
    `slice`/`substring` with clamping, `includes`, and decimal rendering.
    Strings are sequences of Unicode scalar values. */
module Js {

  datatype Option<T> = None | Some(value: T)

  /** The characters matched by `\s` and removed by `String.prototype.trim`:
      ECMAScript WhiteSpace and LineTerminator. */
  predicate IsSpace(c: char) {
    c == '\t' || c == '\n' || c == '\U{B}' || c == '\U{C}' || c == '\r' || c == ' '
    || c == '\U{A0}' || c == '\U{1680}' || ('\U{2000}' <= c <= '\U{200A}')
    || c == '\U{2028}' || c == '\U{2029}' || c == '\U{202F}' || c == '\U{205F}'
    || c == '\U{3000}' || c == '\U{FEFF}'
  }

  predicate AllSpace(s: string) {
    forall i :: 0 <= i < |s| ==> IsSpace(s[i])
  }

  /** `s.trimStart()`: the suffix left after dropping leading white space. */
  function TrimStart(s: string): (r: string)
    ensures |r| <= |s| && r == s[|s| - |r|..]
    ensures r == [] || !IsSpace(r[0])
    ensures AllSpace(s[..|s| - |r|])
  {
    if s != [] && IsSpace(s[0]) then
      var r := TrimStart(s[1..]);
      assert s[1..][..|s[1..]| - |r|] == s[1..|s| - |r|];
      r
    else s
  }

  /** `s.trimEnd()`: the prefix left after dropping trailing white space. */
  function TrimEnd(s: string): (r: string)
    ensures |r| <= |s| && r == s[..|r|]
    ensures r == [] || !IsSpace(r[|r| - 1])
    ensures AllSpace(s[|r|..])
  {
    if s != [] && IsSpace(s[|s| - 1]) then
      var r := TrimEnd(s[..|s| - 1]);
      assert s[..|s| - 1][..|r|] == s[..|r|];
      r
    else s
  }

  /** `s.trim()`. */
  function Trim(s: string): (r: string)
    ensures exists a :: (0 <= a <= |s| - |r| && r == s[a..a + |r|]
                         && AllSpace(s[..a]) && AllSpace(s[a + |r|..]))
    ensures r == [] || (!IsSpace(r[0]) && !IsSpace(r[|r| - 1]))
  {
    var t := TrimStart(s);
    var r := TrimEnd(t);
    TrimParts(s, t, r);
    r
  }

  /** Where the two trims cut: the kept text sits at `|s| - |t|`, and both
      cut-off ends are white space. */
  lemma TrimParts(s: string, t: string, r: string)
    requires |t| <= |s| && t == s[|s| - |t|..] && AllSpace(s[..|s| - |t|])
    requires |r| <= |t| && r == t[..|r|] && AllSpace(t[|r|..])
    ensures var a := |s| - |t|;
      0 <= a <= |s| - |r| && r == s[a..a + |r|] && AllSpace(s[..a]) && AllSpace(s[a + |r|..])
  {
    var a := |s| - |t|;
    assert s[a + |r|..] == t[|r|..];
  }

  /** `!s.trim()`: the string is empty or white space only. */
  lemma BlankIffAllSpace(s: string)
    ensures Trim(s) == [] <==> AllSpace(s)
  {
    var t := TrimStart(s);
    var r := TrimEnd(t);
    assert Trim(s) == r;
    if r == [] {
      assert t[|r|..] == t;
      assert s[|s| - |t|..] == t;
      AllSpaceJoin(s, |s| - |t|);
    } else {
      assert t[0] == r[0] && s[|s| - |t|] == t[0];
    }
  }

  /** White space on both sides of a cut is white space throughout. */
  lemma AllSpaceJoin(s: string, a: int)
    requires 0 <= a <= |s| && AllSpace(s[..a]) && AllSpace(s[a..])
    ensures AllSpace(s)
  {
    forall i | 0 <= i < |s| ensures IsSpace(s[i]) {
      if i < a { assert s[..a][i] == s[i]; } else { assert s[a..][i - a] == s[i]; }
    }
  }

  /** Trimming leaves nothing further to trim. */
  lemma TrimIdempotent(s: string)
    ensures Trim(Trim(s)) == Trim(s)
  {
    var r := Trim(s);
    assert r == [] || !IsSpace(r[0]);
    assert TrimStart(r) == r;
    assert TrimEnd(r) == r;
  }

  function LowerChar(c: char): (d: char)
    ensures ('A' <= c <= 'Z') ==> d as int == c as int + 32
    ensures !('A' <= c <= 'Z') ==> d == c
  {
    if 'A' <= c <= 'Z' then (c as int + 32) as char else c
  }

  function UpperChar(c: char): (d: char)
    ensures ('a' <= c <= 'z') ==> d as int == c as int - 32
    ensures !('a' <= c <= 'z') ==> d == c
  {
    if 'a' <= c <= 'z' then (c as int - 32) as char else c
  }

  /** `s.toLowerCase()`, on the ASCII letters. */
  function ToLower(s: string): (r: string)
    ensures |r| == |s|
    ensures forall i {:trigger r[i]} :: 0 <= i < |s| ==> r[i] == LowerChar(s[i])
  {
    if s == [] then [] else [LowerChar(s[0])] + ToLower(s[1..])
  }

  /** `s.toUpperCase()`, on the ASCII letters. */
  function ToUpper(s: string): (r: string)
    ensures |r| == |s|
    ensures forall i :: 0 <= i < |s| ==> r[i] == UpperChar(s[i])
  {
    if s == [] then [] else [UpperChar(s[0])] + ToUpper(s[1..])
  }

  /** Index of the first occurrence of `c` (`s.indexOf(c)` when it is found). */
  function IndexOf<T(==)>(s: seq<T>, c: T): (i: nat)
    requires c in s
    ensures i < |s| && s[i] == c && c !in s[..i]
  {
    if s[0] == c then 0 else
      var i := IndexOf(s[1..], c);
      assert s[..i + 1] == [s[0]] + s[1..][..i];
      i + 1
  }

  /** The inverse of `Split`: the parts glued back with the separator. */
  function Join(parts: seq<string>, sep: char): string
    requires |parts| >= 1
  {
    if |parts| == 1 then parts[0] else parts[0] + [sep] + Join(parts[1..], sep)
  }

  /** `s.split(sep)` for a one-character separator: the maximal
      separator-free fields, which rejoin to `s`. */
  function Split(s: string, sep: char): (parts: seq<string>)
    ensures |parts| >= 1
    ensures forall k :: 0 <= k < |parts| ==> sep !in parts[k]
    ensures Join(parts, sep) == s
    decreases |s|
  {
    if sep !in s then [s]
    else
      var i := IndexOf(s, sep);
      var rest := Split(s[i + 1..], sep);
      assert s == s[..i] + [sep] + s[i + 1..];
      [s[..i]] + rest
  }

  /** A separator-free decomposition is the one `Split` finds. */
  lemma {:induction false} SplitUnique(parts: seq<string>, sep: char)
    requires |parts| >= 1
    requires forall k :: 0 <= k < |parts| ==> sep !in parts[k]
    ensures Split(Join(parts, sep), sep) == parts
    decreases |parts|
  {
    var s := Join(parts, sep);
    if |parts| == 1 {
    } else {
      var tail := Join(parts[1..], sep);
      assert s == parts[0] + [sep] + tail;
      assert s[|parts[0]|] == sep;
      assert s[..|parts[0]|] == parts[0];
      assert sep in s;
      var i := IndexOf(s, sep);
      assert i == |parts[0]|;
      assert s[i + 1..] == tail;
      SplitUnique(parts[1..], sep);
      assert Split(s, sep) == [parts[0]] + parts[1..];
    }
  }

  /** Splitting at the first separator: the field before it, then the rest split. */
  lemma SplitFirst(a: string, sep: char, b: string)
    requires sep !in a
    ensures Split(a + [sep] + b, sep) == [a] + Split(b, sep)
  {
    var s := a + [sep] + b;
    assert s[|a|] == sep;
    var i := IndexOf(s, sep);
    assert s[..|a|] == a;
    assert i == |a|;
    assert s[i + 1..] == b;
  }

  function Last<T>(s: seq<T>): T requires |s| > 0 { s[|s| - 1] }

  /** The last field is whatever follows the last separator. */
  lemma {:induction false} SplitLast(a: string, sep: char, b: string)
    requires sep !in b
    ensures Last(Split(a + [sep] + b, sep)) == b
    decreases |a|
  {
    if sep !in a {
      SplitFirst(a, sep, b);
      SplitAlone(b, sep);
    } else {
      var i := IndexOf(a, sep);
      var head, tail := a[..i], a[i + 1..] + [sep] + b;
      assert a + [sep] + b == head + [sep] + tail by {
        assert a == a[..i] + [sep] + a[i + 1..];
      }
      SplitFirst(head, sep, tail);
      SplitLast(a[i + 1..], sep, b);
      LastAppend(head, Split(tail, sep));
    }
  }

  lemma LastAppend<T>(x: T, s: seq<T>)
    requires |s| > 0
    ensures Last([x] + s) == Last(s)
  {
  }

  /** A separator-free string is one field. */
  lemma SplitAlone(s: string, sep: char)
    requires sep !in s
    ensures Split(s, sep) == [s]
  {
  }

  /** `s.slice(start, end)` with non-negative indices: both ends clamped to
      the length, empty when `end` does not exceed `start`. */
  function Slice<T>(s: seq<T>, start: nat, end: nat): (r: seq<T>)
    ensures |r| == if start < end && start < |s| then Min(end, |s|) - start else 0
    ensures forall k :: 0 <= k < |r| ==> r[k] == s[start + k]
  {
    if start < end && start < |s| then s[start..Min(end, |s|)] else []
  }

  function Min(a: int, b: int): int { if a <= b then a else b }

  /** `s.includes(t)`: `t` occurs as a contiguous block of `s`. */
  predicate OccursAt(t: string, s: string, i: int) {
    0 <= i <= |s| - |t| && s[i..i + |t|] == t
  }

  ghost predicate Occurs(t: string, s: string) {
    exists i :: OccursAt(t, s, i)
  }

  function Includes(s: string, t: string): (b: bool)
    ensures b <==> Occurs(t, s)
    decreases |s|
  {
    if |t| > |s| then false
    else if s[..|t|] == t then assert OccursAt(t, s, 0); true
    else
      var b := Includes(s[1..], t);
      assert b ==> Occurs(t, s) by {
        if b {
          var i :| OccursAt(t, s[1..], i);
          assert s[i + 1..i + 1 + |t|] == t;
          assert OccursAt(t, s, i + 1);
        }
      }
      assert Occurs(t, s) ==> b by {
        if Occurs(t, s) {
          var i :| OccursAt(t, s, i);
          assert i != 0;
          assert s[1..][i - 1..i - 1 + |t|] == t;
          assert OccursAt(t, s[1..], i - 1);
        }
      }
      b
  }

  predicate IsDigit(c: char) { '0' <= c <= '9' }

  predicate AllDigits(s: string) { forall i :: 0 <= i < |s| ==> IsDigit(s[i]) }

  /** The number a digit string denotes. */
  function DigitsValue(s: string): nat
    requires AllDigits(s)
  {
    if s == [] then 0 else 10 * DigitsValue(s[..|s| - 1]) + (s[|s| - 1] as int - '0' as int)
  }

  /** `String(n)` for a non-negative integer: its decimal digits, no leading zero. */
  function DecimalString(n: nat): (r: string)
    ensures r != [] && AllDigits(r)
    ensures |r| > 1 ==> r[0] != '0'
    ensures DigitsValue(r) == n
  {
    if n < 10 then ['0' + n as char]
    else
      var r := DecimalString(n / 10) + ['0' + (n % 10) as char];
      assert r[..|r| - 1] == DecimalString(n / 10);
      r
  }

  /** How a member inherited from `Object.prototype` prints inside a template
      literal, for the names a plain object literal inherits. */
  function InheritedMember(key: string): Option<string> {
    if key == "__proto__" then Some("[object Object]")
    else if key == "constructor" then Some("function Object() { [native code] }")
    else if key in {"toString", "toLocaleString", "valueOf", "hasOwnProperty", "isPrototypeOf",
                    "propertyIsEnumerable", "__defineGetter__", "__defineSetter__",
                    "__lookupGetter__", "__lookupSetter__"}
    then Some("function " + key + "() { [native code] }")
    else None
  }

  /** No inherited member has a name starting with any other letter. */
  lemma NotInheritedByInitial(key: string)
    requires |key| > 0
    requires key[0] != '_' && key[0] != 'c' && key[0] != 't' && key[0] != 'v'
    requires key[0] != 'h' && key[0] != 'i' && key[0] != 'p'
    ensures InheritedMember(key) == None
  {
  }

  /** `table[key]` on an object literal with string values: its own value,
      else a member inherited from `Object.prototype` (in its printed form),
      else None for `undefined`. */
  function ObjectLookup(table: map<string, string>, key: string): Option<string>
  {
    if key in table then Some(table[key]) else InheritedMember(key)
  }

  /** Positions of the parts in a concatenation of nine strings. */
  lemma Layout(a: string, b: string, c: string, d: string, e: string, f: string,
               g: string, h: string, i: string)
    ensures var p := a + b + c + d + e + f + g + h + i;
      var pb := |a|;
      var pd := pb + |b| + |c|;
      var pf := pd + |d| + |e|;
      var ph := pf + |f| + |g|;
      && |p| == ph + |h| + |i|
      && p[..pb] == a && p[pb..pb + |b|] == b && p[pd..pd + |d|] == d
      && p[pf..pf + |f|] == f && p[ph..ph + |h|] == h && p[ph + |h|..] == i
  {
    var x2 := a + b;
    var x4 := x2 + c + d;
    var x6 := x4 + e + f;
    var x8 := x6 + g + h;
    var p := x8 + i;
    assert p[..|x8|] == x8 && p[|x8|..] == i;
    assert x8[..|x6|] == x6 && x8[|x6| + |g|..] == h;
    assert x6[..|x4|] == x4 && x6[|x4| + |e|..] == f;
    assert x4[..|x2|] == x2 && x4[|x2| + |c|..] == d;
    assert x2[..|a|] == a && x2[|a|..] == b;
    PrefixSlice(p, x8, |x6| + |g|, |x8|);
    PrefixSlice(p, x6, |x4| + |e|, |x6|);
    PrefixSlice(p, x4, |x2| + |c|, |x4|);
    PrefixSlice(p, x2, |a|, |x2|);
    PrefixSlice(p, x2, 0, |a|);
  }

  /** A slice inside a prefix is the same slice of the prefix. */
  lemma PrefixSlice(p: string, x: string, i: nat, j: nat)
    requires |x| <= |p| && p[..|x|] == x && i <= j <= |x|
    ensures p[i..j] == x[i..j]
  {
    assert forall k :: i <= k < j ==> p[k] == p[..|x|][k];
  }
}
