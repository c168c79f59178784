/** String helpers the store relies on: case mapping for search, `trim`,
    `includes`, `split`/`join`, and decimal rendering of integers. */
module Text {

  /** `toLowerCase` of one character: the capitals of ASCII and Latin-1
      (Portuguese names use only these) move down by 32; every other
      character, including letters beyond Latin-1, maps to itself. */
  function LowerChar(c: char): char
  {
    if 'A' <= c <= 'Z' || ('\U{c0}' <= c <= '\U{de}' && c != '\U{d7}')
    then (c as int + 32) as char
    else c
  }

  /** `toUpperCase` of one character of ASCII or Latin-1 other than the
      sharp s: the small letters move up by 32, the micro sign becomes
      Greek capital mu and y with diaeresis its capital in Latin
      Extended-A; every other character maps to itself. */
  function UpperChar(c: char): char
  {
    if 'a' <= c <= 'z' || ('\U{e0}' <= c <= '\U{fe}' && c != '\U{f7}') then (c as int - 32) as char
    else if c == '\U{b5}' then '\U{39c}'
    else if c == '\U{ff}' then '\U{178}'
    else c
  }

  /** Upper-case form of one character: the sharp s becomes the two
      letters "SS", as `toUpperCase` does; any other character one. */
  function UpperOf(c: char): (r: string)
    ensures |r| == (if c == '\U{df}' then 2 else 1)
    ensures c != '\U{df}' ==> r == [UpperChar(c)]
  {
    if c == '\U{df}' then "SS" else [UpperChar(c)]
  }

  /** Number of sharp s characters in `s`. */
  function Eszetts(s: string): nat
  {
    if s == [] then 0 else (if s[0] == '\U{df}' then 1 else 0) + Eszetts(s[1..])
  }

  function Lower(s: string): (r: string)
    ensures |r| == |s|
    ensures forall i :: 0 <= i < |s| ==> r[i] == LowerChar(s[i])
  {
    if s == [] then [] else [LowerChar(s[0])] + Lower(s[1..])
  }

  /** `s.toUpperCase()`: each sharp s adds one character; a string without
      one keeps its length and is mapped character by character. */
  function Upper(s: string): (r: string)
    ensures |r| == |s| + Eszetts(s)
    ensures Eszetts(s) == 0 ==> forall i :: 0 <= i < |s| ==> r[i] == UpperChar(s[i])
  {
    if s == [] then [] else UpperOf(s[0]) + Upper(s[1..])
  }

  /** `s.includes(sub)`: `sub` occurs in `s` at some position. */
  predicate Contains(s: string, sub: string)
  {
    exists i :: 0 <= i <= |s| - |sub| && OccursAt(s, sub, i)
  }

  predicate OccursAt(s: string, sub: string, i: int)
    requires 0 <= i <= |s| - |sub|
  {
    s[i..i + |sub|] == sub
  }

  /** Case-insensitive containment, as `a.toLowerCase().includes(b.toLowerCase())`. */
  predicate ContainsIgnoringCase(s: string, sub: string)
  {
    Contains(Lower(s), Lower(sub))
  }

  /** The characters `trim()` removes: the white space of ECMAScript
      (tab, vertical tab, form feed, space, no-break space, the byte order
      mark and every other space separator of Unicode) and its line
      terminators (line feed, carriage return, line and paragraph
      separators). */
  predicate IsSpace(c: char)
  {
    c == '\t' || c == '\U{000B}' || c == '\U{000C}' || c == ' ' || c == '\U{00A0}' || c == '\U{FEFF}'
    || c == '\U{1680}' || ('\U{2000}' <= c <= '\U{200A}') || c == '\U{202F}' || c == '\U{205F}'
    || c == '\U{3000}'
    || c == '\n' || c == '\r' || c == '\U{2028}' || c == '\U{2029}'
  }

  function TrimStart(s: string): (r: string)
    ensures |r| <= |s| && r == s[|s| - |r|..]
    ensures r != [] ==> !IsSpace(r[0])
    ensures forall i :: 0 <= i < |s| - |r| ==> IsSpace(s[i])
  {
    if s != [] && IsSpace(s[0]) then TrimStart(s[1..]) else s
  }

  function TrimEnd(s: string): (r: string)
    ensures |r| <= |s| && r == s[..|r|]
    ensures r != [] ==> !IsSpace(r[|r| - 1])
    ensures forall i :: |r| <= i < |s| ==> IsSpace(s[i])
  {
    if s != [] && IsSpace(s[|s| - 1]) then TrimEnd(s[..|s| - 1]) else s
  }

  /** Every character of `s` is white space. */
  predicate Blank(s: string)
  {
    forall j :: 0 <= j < |s| ==> IsSpace(s[j])
  }

  /** `s.trim()`: `s` is the result with white space around it, and the
      result neither starts nor ends with white space. */
  function Trim(s: string): (r: string)
    ensures var i := |s| - |TrimStart(s)|;
      0 <= i && i + |r| <= |s| && s == s[..i] + r + s[i + |r|..]
      && Blank(s[..i]) && Blank(s[i + |r|..])
    ensures r != [] ==> !IsSpace(r[0]) && !IsSpace(r[|r| - 1])
  {
    TrimIsSlice(s);
    TrimEnd(TrimStart(s))
  }

  lemma TrimIsSlice(s: string)
    ensures var i := |s| - |TrimStart(s)|;
      var e := TrimEnd(TrimStart(s));
      0 <= i && i + |e| <= |s| && s == s[..i] + e + s[i + |e|..]
      && Blank(s[..i]) && Blank(s[i + |e|..])
  {
    var t := TrimStart(s);
    var e := TrimEnd(t);
    var i := |s| - |t|;
    TrimStartSplit(s);
    TrimEndSplit(t);
    Recombine(s, s[..i], t, e, t[|e|..]);
  }

  lemma TrimStartSplit(s: string)
    ensures var i := |s| - |TrimStart(s)|; s == s[..i] + TrimStart(s) && Blank(s[..i])
  {
    var i := |s| - |TrimStart(s)|;
    assert forall j :: 0 <= j < i ==> s[..i][j] == s[j];
  }

  lemma TrimEndSplit(t: string)
    ensures var n := |TrimEnd(t)|; t == TrimEnd(t) + t[n..] && Blank(t[n..])
  {
    var n := |TrimEnd(t)|;
    assert forall j :: 0 <= j < |t| - n ==> t[n..][j] == t[n + j];
  }

  lemma Recombine<T>(s: seq<T>, a: seq<T>, t: seq<T>, e: seq<T>, b: seq<T>)
    requires s == a + t && t == e + b
    ensures s == a + e + b && s[..|a|] == a && s[|a| + |e|..] == b
  {
  }

  /** A string trims to empty exactly when all of it is white space. */
  lemma TrimEmptyIffBlank(s: string)
    ensures Trim(s) == [] <==> forall i :: 0 <= i < |s| ==> IsSpace(s[i])
  {
    var t := TrimStart(s);
    if t != [] {
      assert t[0] == s[|s| - |t|];
    }
  }

  /** No character of `s` is in `seps`. */
  predicate Free(s: string, seps: set<char>)
  {
    forall j :: 0 <= j < |s| ==> s[j] !in seps
  }

  /** `s.split(seps)`: the pieces between separator characters. Like
      JavaScript, the empty string splits into one empty piece and a
      trailing separator leaves a trailing empty piece. */
  function Split(s: string, seps: set<char>): (r: seq<string>)
    ensures |r| >= 1
    ensures forall k :: 0 <= k < |r| ==> Free(r[k], seps)
  {
    if s == [] then [[]]
    else
      var rest := Split(s[1..], seps);
      if s[0] in seps then [[]] + rest
      else [[s[0]] + rest[0]] + rest[1..]
  }

  function Join(parts: seq<string>, sep: char): string
  {
    if parts == [] then []
    else if |parts| == 1 then parts[0]
    else parts[0] + [sep] + Join(parts[1..], sep)
  }

  lemma JoinCons(a: string, parts: seq<string>, sep: char)
    requires parts != []
    ensures Join([a] + parts, sep) == a + [sep] + Join(parts, sep)
  {
    assert ([a] + parts)[1..] == parts;
  }

  /** Joining the pieces of a split with the separator gives the string back. */
  lemma {:induction false} JoinSplit(s: string, sep: char)
    ensures Join(Split(s, {sep}), sep) == s
  {
    if s != [] {
      var rest := Split(s[1..], {sep});
      JoinSplit(s[1..], sep);
      if s[0] == sep {
        JoinCons([], rest, sep);
        assert s == [s[0]] + s[1..];
      } else if |rest| == 1 {
        assert s == [s[0]] + s[1..];
      } else {
        JoinCons([s[0]] + rest[0], rest[1..], sep);
        assert rest == [rest[0]] + rest[1..];
        JoinCons(rest[0], rest[1..], sep);
        assert s == [s[0]] + s[1..];
      }
    }
  }

  lemma {:induction false} SplitNoSeparator(a: string, sep: char)
    requires sep !in a
    ensures Split(a, {sep}) == [a]
  {
    if a != [] {
      SplitNoSeparator(a[1..], sep);
      assert a == [a[0]] + a[1..];
    }
  }

  lemma {:induction false} SplitAtSeparator(a: string, b: string, sep: char)
    requires sep !in a
    ensures Split(a + [sep] + b, {sep}) == [a] + Split(b, {sep})
  {
    if a == [] {
      assert a + [sep] + b == [sep] + b;
      assert ([sep] + b)[1..] == b;
    } else {
      SplitAtSeparator(a[1..], b, sep);
      assert (a + [sep] + b)[1..] == a[1..] + [sep] + b;
      assert a == [a[0]] + a[1..];
    }
  }

  /** Splitting a join of separator-free pieces gives the pieces back. */
  lemma {:induction false} SplitJoin(parts: seq<string>, sep: char)
    requires |parts| >= 1
    requires forall k :: 0 <= k < |parts| ==> sep !in parts[k]
    ensures Split(Join(parts, sep), {sep}) == parts
  {
    if |parts| == 1 {
      SplitNoSeparator(parts[0], sep);
    } else {
      SplitJoin(parts[1..], sep);
      SplitAtSeparator(parts[0], Join(parts[1..], sep), sep);
      assert parts == [parts[0]] + parts[1..];
    }
  }

  /** `s` with every character of `seps` replaced by `c`. */
  function Unify(s: string, seps: set<char>, c: char): (r: string)
    ensures |r| == |s|
    ensures forall i :: 0 <= i < |s| ==> r[i] == (if s[i] in seps then c else s[i])
  {
    if s == [] then [] else [if s[0] in seps then c else s[0]] + Unify(s[1..], seps, c)
  }

  /** Splitting on a set of separators is splitting on one of them once
      all the others have been turned into it. */
  lemma {:induction false} SplitUnify(s: string, seps: set<char>, c: char)
    requires c in seps
    ensures Split(s, seps) == Split(Unify(s, seps, c), {c})
  {
    if s != [] {
      SplitUnify(s[1..], seps, c);
      assert Unify(s, seps, c)[1..] == Unify(s[1..], seps, c);
    }
  }

  /** Joining the pieces of a split on several separators with one of
      them gives the text back, each separator replaced by that one. */
  lemma JoinSplitAny(s: string, seps: set<char>, c: char)
    requires c in seps
    ensures Join(Split(s, seps), c) == Unify(s, seps, c)
  {
    SplitUnify(s, seps, c);
    JoinSplit(Unify(s, seps, c), c);
  }

  lemma ConsFree(head: string, rest: seq<string>, c: char)
    requires c !in head && forall k :: 0 <= k < |rest| ==> c !in rest[k]
    ensures forall k :: 0 <= k < |[head] + rest| ==> c !in ([head] + rest)[k]
  {
  }

  lemma {:induction false} JoinFree(parts: seq<string>, sep: char, c: char)
    requires c != sep
    requires forall k :: 0 <= k < |parts| ==> c !in parts[k]
    ensures c !in Join(parts, sep)
  {
    if |parts| > 1 {
      JoinFree(parts[1..], sep, c);
    }
  }

  function DigitChar(d: nat): (r: char)
    requires d < 10
    ensures '0' <= r <= '9' && DigitValue(r) == d
  {
    ('0' as int + d) as char
  }

  /** The value of a decimal digit character. */
  function DigitValue(c: char): int
  {
    c as int - '0' as int
  }

  /** The number a string of decimal digits denotes, most significant
      first; the empty string denotes 0. */
  function DigitsValue(s: string): int
  {
    if s == [] then 0 else 10 * DigitsValue(s[..|s| - 1]) + DigitValue(s[|s| - 1])
  }

  /** Decimal digits of a natural number, most significant first. */
  function NatToString(n: nat): (r: string)
    ensures |r| >= 1
    ensures forall i :: 0 <= i < |r| ==> '0' <= r[i] <= '9'
  {
    if n < 10 then [DigitChar(n)] else NatToString(n / 10) + [DigitChar(n % 10)]
  }

  /** Reading the digits back gives the number. */
  lemma {:induction false} NatToStringValue(n: nat)
    ensures DigitsValue(NatToString(n)) == n
  {
    var s := NatToString(n);
    if n < 10 {
      assert s[..0] == [];
    } else {
      NatToStringValue(n / 10);
      assert s[..|s| - 1] == NatToString(n / 10);
    }
  }

  /** `String(n)` for an integer. */
  function IntToString(n: int): string
  {
    if n < 0 then "-" + NatToString(-n) else NatToString(n)
  }
}
