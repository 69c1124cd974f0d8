/**
 * String helpers with the meaning Python gives them in the assistant's code:
 * `str.lower()`, `sub in s`, `str.strip()`, `str.split()`, `sep.join(...)`,
 * `int(...)` on a string (whitespace, sign, digits and `_`) and the `%02d` / `%04d` formats.
 * Only the ASCII part of Python's Unicode tables is modelled.
 */
module Text {
  import opened Wrappers

  /** The ASCII characters Python treats as whitespace in `split()`, `strip()` and `\s`. */
  const Whitespace: set<char> := {' ', '\t', '\n', '\r', '\U{B}', '\U{C}', '\U{1C}', '\U{1D}', '\U{1E}', '\U{1F}'}

  predicate IsDigit(c: char) { '0' <= c <= '9' }

  /** The regular-expression class `\w` (ASCII part). */
  predicate IsWordChar(c: char) { 'a' <= c <= 'z' || 'A' <= c <= 'Z' || IsDigit(c) || c == '_' }

  function LowerChar(c: char): char
  {
    if 'A' <= c <= 'Z' then (c as int - 'A' as int + 'a' as int) as char else c
  }

  /** `s.lower()` */
  function ToLower(s: string): string
  {
    seq(|s|, i requires 0 <= i < |s| => LowerChar(s[i]))
  }

  /** `sub` occurs in `s` starting at position i. */
  predicate OccursAt(s: string, sub: string, i: int)
  {
    0 <= i <= |s| - |sub| && s[i..i + |sub|] == sub
  }

  /** `sub in s` */
  predicate Contains(s: string, sub: string)
  {
    exists i | 0 <= i <= |s| - |sub| :: OccursAt(s, sub, i)
  }

  /** `any(w in s for w in words)` */
  predicate ContainsAny(s: string, words: seq<string>)
  {
    exists k :: 0 <= k < |words| && Contains(s, words[k])
  }

  /** Lower-casing leaves a string without upper-case letters as it is. */
  lemma ToLowerNoUpper(s: string)
    requires forall i :: 0 <= i < |s| ==> !('A' <= s[i] <= 'Z')
    ensures ToLower(s) == s
  {
  }

  /** Lower-casing works character by character, so it distributes over concatenation. */
  lemma ToLowerConcat(a: string, b: string)
    ensures ToLower(a + b) == ToLower(a) + ToLower(b)
  {
  }

  /** A string that contains `sub` contains its first character. */
  lemma ContainsFirstChar(s: string, sub: string)
    requires |sub| > 0 && Contains(s, sub)
    ensures sub[0] in s
  {
    var i :| 0 <= i <= |s| - |sub| && OccursAt(s, sub, i);
    assert s[i] == s[i..i + |sub|][0];
  }

  /** A string without the first character of `sub` does not contain `sub`. */
  lemma MissingFirstChar(s: string, sub: string)
    requires |sub| > 0 && sub[0] !in s
    ensures !Contains(s, sub)
  {
    if Contains(s, sub) {
      ContainsFirstChar(s, sub);
    }
  }

  /** A witness position makes `sub in s` true. */
  lemma ContainsAt(s: string, sub: string, i: int)
    requires OccursAt(s, sub, i)
    ensures Contains(s, sub)
  {
  }

  /** A string containing `mid` contains everything `mid` contains. */
  lemma ContainsTransitive(s: string, mid: string, sub: string)
    requires Contains(s, mid) && Contains(mid, sub)
    ensures Contains(s, sub)
  {
    var i :| 0 <= i <= |s| - |mid| && OccursAt(s, mid, i);
    var j :| 0 <= j <= |mid| - |sub| && OccursAt(mid, sub, j);
    forall k | 0 <= k < |sub|
      ensures s[i + j + k] == sub[k]
    {
      assert s[i..i + |mid|][j + k] == mid[j + k];
      assert mid[j..j + |sub|][k] == sub[k];
    }
    assert s[i + j..i + j + |sub|] == sub;
    assert OccursAt(s, sub, i + j);
  }

  /** The position of the first word of `words` that `s` contains, or |words| when none is. */
  function FirstIndexContained(s: string, words: seq<string>): (k: nat)
    ensures k <= |words|
    ensures forall j :: 0 <= j < k ==> !Contains(s, words[j])
    ensures k < |words| ==> Contains(s, words[k])
    ensures k == |words| <==> !ContainsAny(s, words)
  {
    if words == [] then 0
    else if Contains(s, words[0]) then 0
    else 1 + FirstIndexContained(s, words[1..])
  }

  /** Drops the leading characters that belong to `drop`. */
  function TrimStart(s: string, drop: set<char>): (r: string)
    ensures |r| <= |s| && r == s[|s| - |r|..]
    ensures r == [] || r[0] !in drop
    ensures forall i :: 0 <= i < |s| - |r| ==> s[i] in drop
  {
    if s != [] && s[0] in drop then TrimStart(s[1..], drop) else s
  }

  /** Drops the trailing characters that belong to `drop`. */
  function TrimEnd(s: string, drop: set<char>): (r: string)
    ensures |r| <= |s| && r == s[..|r|]
    ensures r == [] || r[|r| - 1] !in drop
    ensures forall i :: |r| <= i < |s| ==> s[i] in drop
  {
    if s != [] && s[|s| - 1] in drop then TrimEnd(s[..|s| - 1], drop) else s
  }

  /** `s.strip(chars)` */
  function StripChars(s: string, drop: set<char>): string
  {
    TrimEnd(TrimStart(s, drop), drop)
  }

  /** `s.strip()` */
  function Strip(s: string): string
  {
    StripChars(s, Whitespace)
  }

  /** Stripping a stripped string changes nothing. */
  lemma StripIdempotent(s: string, drop: set<char>)
    ensures StripChars(StripChars(s, drop), drop) == StripChars(s, drop)
  {
    var t := TrimStart(s, drop);
    var r := TrimEnd(t, drop);
    if r != [] {
      assert r[0] == t[0];
      assert TrimStart(r, drop) == r;
    }
  }

  /** What stripping leaves is a piece of the original string. */
  lemma StripCharsOccurs(s: string, drop: set<char>)
    ensures Contains(s, StripChars(s, drop))
  {
    var t := TrimStart(s, drop);
    var r := TrimEnd(t, drop);
    PrefixOfSuffixOccurs(s, |s| - |t|, |r|);
  }

  /** What stripping leaves begins and ends outside `drop`, and holds only characters of the original. */
  lemma StripCharsFacts(s: string, drop: set<char>)
    ensures var r := StripChars(s, drop);
            (r != [] ==> r[0] !in drop && r[|r| - 1] !in drop)
            && forall k | 0 <= k < |r| :: r[k] in s
  {
    var t := TrimStart(s, drop);
    var r := TrimEnd(t, drop);
    assert r != [] ==> r[0] == t[0];
    forall k | 0 <= k < |r|
      ensures r[k] in s
    {
      SliceCharOccurs(s, |s| - |t|, |r|, k);
    }
  }

  /** A character of a slice of `s` is a character of `s`. */
  lemma SliceCharOccurs(s: string, a: nat, n: nat, k: nat)
    requires a + n <= |s| && k < n
    ensures s[a..][..n][k] in s
  {
    assert s[a..][..n][k] == s[a + k];
  }

  /** Lower-casing commutes with taking a slice. */
  lemma ToLowerSlice(s: string, a: nat, b: nat)
    requires a <= b <= |s|
    ensures ToLower(s)[a..b] == ToLower(s[a..b])
  {
  }

  /** Lower-casing preserves containment. */
  lemma ContainsLower(s: string, sub: string)
    requires Contains(s, sub)
    ensures Contains(ToLower(s), ToLower(sub))
  {
    var i :| 0 <= i <= |s| - |sub| && OccursAt(s, sub, i);
    ToLowerSlice(s, i, i + |sub|);
    ContainsAt(ToLower(s), ToLower(sub), i);
  }

  /** A string with no character from `drop` is left as it is by stripping. */
  lemma StripNothingToDrop(s: string, drop: set<char>)
    requires forall i :: 0 <= i < |s| ==> s[i] !in drop
    ensures StripChars(s, drop) == s
  {
  }

  /** The longest prefix of `s` without whitespace. */
  function TakeNonSpace(s: string): (r: string)
    ensures |r| <= |s| && r == s[..|r|]
    ensures forall i :: 0 <= i < |r| ==> r[i] !in Whitespace
    ensures |r| < |s| ==> s[|r|] in Whitespace
  {
    if s != [] && s[0] !in Whitespace then [s[0]] + TakeNonSpace(s[1..]) else []
  }

  /** A non-empty run of non-whitespace characters. */
  predicate IsWord(w: string)
  {
    w != [] && forall i :: 0 <= i < |w| ==> w[i] !in Whitespace
  }

  /** `s.split()`: the maximal runs of non-whitespace, in order. */
  function Words(s: string): (ws: seq<string>)
    ensures forall k :: 0 <= k < |ws| ==> IsWord(ws[k])
    decreases |s|
  {
    var t := TrimStart(s, Whitespace);
    if t == [] then []
    else
      var w := TakeNonSpace(t);
      FirstWord(t);
      var rest := Words(t[|w|..]);
      ConsWords(w, rest);
      [w] + rest
  }

  /** Putting a word in front of a list of words gives a list of words. */
  lemma ConsWords(w: string, rest: seq<string>)
    requires IsWord(w) && forall k :: 0 <= k < |rest| ==> IsWord(rest[k])
    ensures forall k :: 0 <= k < |[w] + rest| ==> IsWord(([w] + rest)[k])
  {
    forall k | 0 <= k < |[w] + rest|
      ensures IsWord(([w] + rest)[k])
    {
      if k > 0 {
        assert ([w] + rest)[k] == rest[k - 1];
      }
    }
  }

  /** A string that starts with a non-whitespace character starts with a word. */
  lemma FirstWord(t: string)
    requires t != [] && t[0] !in Whitespace
    ensures IsWord(TakeNonSpace(t))
  {
  }

  /** Each of `ws` is a piece of `s`. */
  predicate AllOccur(s: string, ws: seq<string>)
  {
    forall k :: 0 <= k < |ws| ==> Contains(s, ws[k])
  }

  /** Every word of `s.split()` is a piece of `s`. */
  lemma {:induction false} WordsOccur(s: string)
    ensures AllOccur(s, Words(s))
    decreases |s|
  {
    var t := TrimStart(s, Whitespace);
    if t != [] {
      var a, n := WordsStep(s);
      WordsOccur(s[a + n..]);
      WordThenRest(s, a, n, Words(s[a + n..]));
    }
  }

  /** `s.split()` on a string with a word: the first word, then the words after it. */
  lemma WordsStep(s: string) returns (a: nat, n: nat)
    requires TrimStart(s, Whitespace) != []
    ensures 0 < a + n <= |s|
    ensures Words(s) == [s[a..][..n]] + Words(s[a + n..])
  {
    var t := TrimStart(s, Whitespace);
    var w := TakeNonSpace(t);
    a, n := |s| - |t|, |w|;
    FirstWord(t);
    assert t == s[a..] && w == t[..n];
    SuffixOfSuffix(s, a, n);
  }

  lemma SuffixOfSuffix(s: string, a: nat, n: nat)
    requires a + n <= |s|
    ensures s[a..][n..] == s[a + n..]
  {
    assert forall i :: 0 <= i < |s| - a - n ==> s[a..][n..][i] == s[a + n + i];
  }

  /** A piece of `s` followed by words of the rest of `s` are all pieces of `s`. */
  lemma WordThenRest(s: string, a: nat, n: nat, ws: seq<string>)
    requires a + n <= |s| && AllOccur(s[a + n..], ws)
    ensures AllOccur(s, [s[a..][..n]] + ws)
  {
    SuffixOccurs(s, a + n);
    PiecesOfPiece(s, s[a + n..], ws);
    PrefixOfSuffixOccurs(s, a, n);
    AllOccurCons(s, s[a..][..n], ws);
  }

  lemma SuffixOccurs(s: string, a: nat)
    requires a <= |s|
    ensures Contains(s, s[a..])
  {
    assert s[a..a + |s[a..]|] == s[a..];
    ContainsAt(s, s[a..], a);
  }

  lemma AllOccurCons(s: string, w: string, ws: seq<string>)
    requires Contains(s, w) && AllOccur(s, ws)
    ensures AllOccur(s, [w] + ws)
  {
    forall k | 0 <= k < |[w] + ws|
      ensures Contains(s, ([w] + ws)[k])
    {
      if k > 0 {
        assert ([w] + ws)[k] == ws[k - 1];
      }
    }
  }

  lemma PrefixOfSuffixOccurs(s: string, a: nat, n: nat)
    requires a + n <= |s|
    ensures Contains(s, s[a..][..n])
  {
    assert s[a..a + n] == s[a..][..n];
    ContainsAt(s, s[a..][..n], a);
  }

  lemma PiecesOfPiece(s: string, mid: string, ws: seq<string>)
    requires Contains(s, mid) && AllOccur(mid, ws)
    ensures AllOccur(s, ws)
  {
    forall k | 0 <= k < |ws|
      ensures Contains(s, ws[k])
    {
      ContainsTransitive(s, mid, ws[k]);
    }
  }

  /** `s[:n]` for n >= 0 */
  function Take<T>(s: seq<T>, n: nat): (r: seq<T>)
    ensures |r| == if n < |s| then n else |s|
    ensures r == s[..|r|]
  {
    if n < |s| then s[..n] else s
  }

  /** `sep.join(parts)` */
  function Join(sep: string, parts: seq<string>): string
  {
    if |parts| == 0 then ""
    else if |parts| == 1 then parts[0]
    else parts[0] + sep + Join(sep, parts[1..])
  }

  /** The position of the first `c` in `s`. */
  function IndexOf(s: string, c: char): (i: nat)
    requires c in s
    ensures i < |s| && s[i] == c && c !in s[..i]
  {
    if s[0] == c then 0 else 1 + IndexOf(s[1..], c)
  }

  /** `s.split(sep)` for a one-character separator. */
  function SplitOn(s: string, sep: char): (parts: seq<string>)
    ensures |parts| >= 1
    ensures forall k :: 0 <= k < |parts| ==> sep !in parts[k]
    decreases |s|
  {
    if sep !in s then [s]
    else
      var i := IndexOf(s, sep);
      [s[..i]] + SplitOn(s[i + 1..], sep)
  }

  /** Joining the pieces of `s.split(sep)` with `sep` gives back `s`. */
  lemma {:induction false} SplitOnJoin(s: string, sep: char)
    ensures Join([sep], SplitOn(s, sep)) == s
    decreases |s|
  {
    if sep in s {
      var i := IndexOf(s, sep);
      var rest := SplitOn(s[i + 1..], sep);
      SplitOnJoin(s[i + 1..], sep);
      assert SplitOn(s, sep) == [s[..i]] + rest;
      assert s == s[..i] + [sep] + s[i + 1..];
    }
  }

  /** Splitting at the first separator: the piece before it, then the split of the rest. */
  lemma SplitOnFirst(a: string, sep: char, b: string)
    requires sep !in a
    ensures SplitOn(a + [sep] + b, sep) == [a] + SplitOn(b, sep)
  {
    var s := a + [sep] + b;
    assert s[|a|] == sep;
    var i := IndexOf(s, sep);
    assert i == |a|;
    assert s[..i] == a;
    assert s[i + 1..] == b;
  }

  function DigitChar(d: nat): char
    requires d < 10
  {
    ('0' as int + d) as char
  }

  function DigitValue(c: char): nat
    requires IsDigit(c)
  {
    c as int - '0' as int
  }

  predicate AllDigits(s: string)
  {
    forall i :: 0 <= i < |s| ==> IsDigit(s[i])
  }

  /** The number a string of decimal digits denotes. */
  function DigitsValue(s: string): nat
    requires AllDigits(s)
  {
    if s == [] then 0 else DigitsValue(s[..|s| - 1]) * 10 + DigitValue(s[|s| - 1])
  }

  /** `int(s)` for a string of ASCII digits; None where `int` raises ValueError. */
  function ParseNat(s: string): Option<nat>
  {
    if s != [] && AllDigits(s) then Some(DigitsValue(s)) else None
  }

  /**
   * The value of what `int()` accepts after the sign: ASCII digits, where a single
   * underscore may stand between two digits; None for anything else. Read from the right.
   */
  function ParseUnsigned(s: string): (r: Option<nat>)
    ensures r.Some? ==> s != [] && IsDigit(s[0]) && IsDigit(s[|s| - 1])
    decreases |s|
  {
    if s == [] || !IsDigit(s[|s| - 1]) then None
    else if |s| == 1 then Some(DigitValue(s[0]))
    else
      var init := s[..|s| - 1];
      var rest := if init[|init| - 1] == '_' then init[..|init| - 1] else init;
      match ParseUnsigned(rest)
      case None => None
      case Some(v) => Some(v * 10 + DigitValue(s[|s| - 1]))
  }

  /** `int` on a stripped string: an optional '+' or '-', then the digits. */
  function ParseSigned(t: string): (r: Option<int>)
    ensures r.Some? <==> ParseUnsigned(Unsigned(t)).Some?
    ensures r.Some? ==> (if r.value < 0 then -r.value else r.value) == ParseUnsigned(Unsigned(t)).value
    ensures r.Some? && r.value < 0 ==> t[0] == '-'
    ensures r.Some? && r.value > 0 ==> t[0] != '-'
  {
    if t != [] && t[0] == '-' then
      match ParseUnsigned(t[1..])
      case None => None
      case Some(n) => Some(-(n as int))
    else if t != [] && t[0] == '+' then
      match ParseUnsigned(t[1..])
      case None => None
      case Some(n) => Some(n)
    else
      match ParseUnsigned(t)
      case None => None
      case Some(n) => Some(n)
  }

  /** `t` without its leading '+' or '-', if it has one. */
  function Unsigned(t: string): string
  {
    if t != [] && (t[0] == '-' || t[0] == '+') then t[1..] else t
  }

  /**
   * `int(s)` on a string: surrounding whitespace, an optional '+' or '-', then digits
   * that may be grouped by underscores; None where `int` raises ValueError.
   */
  function ParseInt(s: string): (r: Option<int>)
    decreases |s|
  {
    if s != [] && s[0] in Whitespace then ParseInt(s[1..])
    else if s != [] && s[|s| - 1] in Whitespace then ParseInt(s[..|s| - 1])
    else ParseSigned(s)
  }

  /** `int` strips the surrounding whitespace and reads what is left as a signed literal. */
  lemma {:induction false} ParseIntReadsStripped(s: string)
    ensures ParseInt(s) == ParseSigned(Strip(s))
    decreases |s|
  {
    if s != [] && s[0] in Whitespace {
      ParseIntReadsStripped(s[1..]);
    } else if s != [] && s[|s| - 1] in Whitespace {
      assert TrimStart(s[..|s| - 1], Whitespace) == s[..|s| - 1];
      ParseIntReadsStripped(s[..|s| - 1]);
    }
  }

  /** Plain digits are an `int()` literal worth the number they spell. */
  lemma {:induction false} ParseUnsignedDigits(s: string)
    requires s != [] && AllDigits(s)
    ensures ParseUnsigned(s) == Some(DigitsValue(s))
    decreases |s|
  {
    if |s| > 1 {
      var init := s[..|s| - 1];
      assert IsDigit(init[|init| - 1]);
      ParseUnsignedDigits(init);
    } else {
      assert s[..0] == [];
    }
  }

  /** On plain digits, `int` reads the decimal number they spell. */
  lemma ParseIntDigits(s: string)
    requires s != [] && AllDigits(s)
    ensures ParseInt(s) == Some(DigitsValue(s))
  {
    assert IsDigit(s[0]) && IsDigit(s[|s| - 1]);
    ParseIntOfTrimmed(s);
    ParseUnsignedDigits(s);
  }

  lemma DigitOneValue()
    ensures AllDigits("1") && DigitsValue("1") == 1
  {
    assert "1"[..0] == "";
  }

  /** `int` ignores leading whitespace: `int(" 9")` reads as `int("9")`. */
  lemma ParseIntSkipsLeadingSpace(c: char, s: string)
    requires c in Whitespace
    ensures ParseInt([c] + s) == ParseInt(s)
  {
    assert ([c] + s)[1..] == s;
  }

  /** `int` reads a sign: `int("-" + digits)` is minus their value. */
  lemma ParseIntNegative(s: string)
    requires s != [] && AllDigits(s)
    ensures ParseInt("-" + s) == Some(-(DigitsValue(s) as int))
  {
    var t := "-" + s;
    assert t[|t| - 1] == s[|s| - 1] && IsDigit(s[|s| - 1]);
    ParseIntOfTrimmed(t);
    MinusDigits(s);
  }

  lemma MinusDigits(s: string)
    requires s != [] && AllDigits(s)
    ensures ParseSigned("-" + s) == Some(-(DigitsValue(s) as int))
  {
    var t := "-" + s;
    assert t[0] == '-' && t[1..] == s;
    ParseUnsignedDigits(s);
    MinusSign(t, DigitsValue(s));
  }

  /** Without whitespace at either end, `int` goes straight to the sign and digits. */
  lemma ParseIntOfTrimmed(t: string)
    requires t != [] && t[0] !in Whitespace && t[|t| - 1] !in Whitespace
    ensures ParseInt(t) == ParseSigned(t)
  {
  }

  lemma MinusSign(t: string, n: nat)
    requires t != [] && t[0] == '-' && ParseUnsigned(t[1..]) == Some(n)
    ensures ParseSigned(t) == Some(-(n as int))
  {
  }

  /**
   * What `int()` accepts after the sign: digits, where an underscore may stand only
   * before a digit and never first, so never two in a row and never at either end.
   */
  predicate IntLiteral(s: string)
  {
    s != [] && forall k | 0 <= k < |s| :: IsDigit(s[k]) || (s[k] == '_' && 0 < k < |s| - 1 && IsDigit(s[k + 1]))
  }

  /** `ParseUnsigned` accepts exactly the literals `int()` accepts. */
  lemma {:induction false} ParseUnsignedAccepts(s: string)
    ensures ParseUnsigned(s).Some? <==> IntLiteral(s)
    decreases |s|
  {
    if s == [] || !IsDigit(s[|s| - 1]) {
    } else if |s| > 1 {
      var init := s[..|s| - 1];
      var rest := if init[|init| - 1] == '_' then init[..|init| - 1] else init;
      ParseUnsignedAccepts(rest);
      assert ParseUnsigned(s).Some? <==> ParseUnsigned(rest).Some?;
      if IntLiteral(s) {
        forall k | 0 <= k < |rest|
          ensures IsDigit(rest[k]) || (rest[k] == '_' && 0 < k < |rest| - 1 && IsDigit(rest[k + 1]))
        {
          assert rest[k] == s[k];
          if k + 1 < |rest| { assert rest[k + 1] == s[k + 1]; }
        }
      }
      if IntLiteral(rest) {
        forall k | 0 <= k < |s|
          ensures IsDigit(s[k]) || (s[k] == '_' && 0 < k < |s| - 1 && IsDigit(s[k + 1]))
        {
          if k < |rest| {
            assert s[k] == rest[k];
            if k + 1 < |rest| { assert s[k + 1] == rest[k + 1]; }
          }
        }
      }
    }
  }

  /** A single underscore after a digit and before digits is skipped: it changes nothing in the value. */
  lemma {:induction false} UnderscoreSkipped(a: string, b: string)
    requires a != [] && IsDigit(a[|a| - 1]) && b != [] && AllDigits(b)
    ensures ParseUnsigned(a + "_" + b) == ParseUnsigned(a + b)
    decreases |b|
  {
    var c := b[|b| - 1];
    var b' := b[..|b| - 1];
    SnocSplit(a + "_", b);
    SnocSplit(a, b);
    if |b| == 1 {
      assert (a + "_")[..|a|] == a && b' == [];
      ParseUnsignedStep(a + "_", c, a);
      ParseUnsignedStep(a, c, a);
    } else {
      assert IsDigit(b'[|b'| - 1]);
      ParseUnsignedStep(a + "_" + b', c, a + "_" + b');
      ParseUnsignedStep(a + b', c, a + b');
      UnderscoreSkipped(a, b');
    }
  }

  lemma SnocSplit(x: string, b: string)
    requires b != []
    ensures x + b == (x + b[..|b| - 1]) + [b[|b| - 1]]
  {
  }

  /** One step of `ParseUnsigned` from the right: the last digit, after the rest (an underscore before it dropped). */
  lemma ParseUnsignedStep(init: string, c: char, rest: string)
    requires IsDigit(c) && init != [] && rest == (if init[|init| - 1] == '_' then init[..|init| - 1] else init)
    ensures ParseUnsigned(init + [c]) == if ParseUnsigned(rest).None? then None else Some(ParseUnsigned(rest).value * 10 + DigitValue(c))
  {
    var s := init + [c];
    assert |s| > 1 && s[|s| - 1] == c && s[..|s| - 1] == init;
  }

  /** `int` skips an underscore between two groups of digits: `int("1_2")` is 12. */
  lemma ParseIntUnderscore(a: string, b: string)
    requires a != [] && AllDigits(a) && b != [] && AllDigits(b)
    ensures ParseInt(a + "_" + b) == Some(DigitsValue(a + b))
  {
    var s := a + "_" + b;
    assert s[0] == a[0] && s[|s| - 1] == b[|b| - 1] && IsDigit(a[0]) && IsDigit(b[|b| - 1]);
    ParseIntOfTrimmed(s);
    assert IsDigit(a[|a| - 1]);
    UnderscoreSkipped(a, b);
    assert AllDigits(a + b);
    ParseUnsignedDigits(a + b);
  }

  /** `str(n)` for an integer. */
  function IntToString(n: int): (r: string)
    ensures n >= 0 ==> r == NatToString(n)
    ensures n < 0 ==> |r| > 1 && r[0] == '-' && r[1..] == NatToString(-n)
  {
    if n < 0 then "-" + NatToString(-n) else NatToString(n)
  }

  function Pow10(k: nat): nat
  {
    if k == 0 then 1 else 10 * Pow10(k - 1)
  }

  /** `%0wd` for a number below 10^w: exactly w digits, zero-padded. */
  function FixedDigits(n: nat, w: nat): (r: string)
    ensures |r| == w && AllDigits(r)
  {
    if w == 0 then [] else FixedDigits(n / 10, w - 1) + [DigitChar(n % 10)]
  }

  /** Reading back a zero-padded number gives the number. */
  lemma {:induction false} FixedDigitsRoundTrip(n: nat, w: nat)
    requires n < Pow10(w)
    ensures DigitsValue(FixedDigits(n, w)) == n
  {
    if w > 0 {
      var r := FixedDigits(n, w);
      assert r[..w - 1] == FixedDigits(n / 10, w - 1);
      FixedDigitsRoundTrip(n / 10, w - 1);
    }
  }

  /** `str(n)` for a natural number. */
  function NatToString(n: nat): (r: string)
    ensures r != [] && AllDigits(r)
  {
    if n < 10 then [DigitChar(n)] else NatToString(n / 10) + [DigitChar(n % 10)]
  }

  /** `str(n)` has one digit below ten and two below a hundred. */
  lemma NatToStringLength(n: nat)
    requires n < 100
    ensures |NatToString(n)| == if n < 10 then 1 else 2
  {
    if n >= 10 {
      assert NatToString(n) == NatToString(n / 10) + [DigitChar(n % 10)];
    }
  }

  /** `int(str(n)) == n` */
  lemma {:induction false} NatToStringRoundTrip(n: nat)
    ensures DigitsValue(NatToString(n)) == n
  {
    if n >= 10 {
      var r := NatToString(n);
      assert r[..|r| - 1] == NatToString(n / 10);
      NatToStringRoundTrip(n / 10);
    }
  }

  /** `f"{n:02d}"`: at least two digits, zero-padded. */
  function Pad2(n: nat): (r: string)
    ensures |r| >= 2 && AllDigits(r)
    ensures DigitsValue(r) == n
  {
    if n < 10 then
      FixedDigitsRoundTrip(n, 2);
      FixedDigits(n, 2)
    else
      NatToStringRoundTrip(n);
      assert |NatToString(n)| >= 2 by {
        assert NatToString(n) == NatToString(n / 10) + [DigitChar(n % 10)];
      }
      NatToString(n)
  }
}
