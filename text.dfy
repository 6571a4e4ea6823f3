/** The Python built-ins on strings and lists that the modelled code relies on:
    substring tests, `replace`, `split`, `join`, `lower`, `index`, and the
    number parsing done by `int()` and `float()`. */
module Text {
  import opened Wrappers

  predicate StartsWith(s: string, prefix: string) {
    |prefix| <= |s| && s[..|prefix|] == prefix
  }

  /** `t` occurs in `s` at position `i`. */
  predicate OccursAt(s: string, t: string, i: int) {
    0 <= i <= |s| - |t| && s[i..i + |t|] == t
  }

  /** Python's `t in s` on strings: `t` occurs somewhere in `s`. */
  function Contains(s: string, t: string): (b: bool)
    ensures b <==> exists i :: OccursAt(s, t, i)
    decreases |s|
  {
    if StartsWith(s, t) then
      assert OccursAt(s, t, 0);
      true
    else if s == [] then
      assert forall i :: !OccursAt(s, t, i);
      false
    else
      var b := Contains(s[1..], t);
      assert b ==> exists i :: OccursAt(s, t, i) by {
        if b {
          var i :| OccursAt(s[1..], t, i);
          assert s[i + 1..i + 1 + |t|] == s[1..][i..i + |t|];
          assert OccursAt(s, t, i + 1);
        }
      }
      assert (exists i :: OccursAt(s, t, i)) ==> b by {
        if exists i :: OccursAt(s, t, i) {
          var i :| OccursAt(s, t, i);
          assert i != 0;
          assert s[1..][i - 1..i - 1 + |t|] == s[i..i + |t|];
          assert OccursAt(s[1..], t, i - 1);
        }
      }
      b
  }

  /** A text without the first character of `t` cannot contain `t`. */
  lemma NotContainsWithoutFirst(s: string, t: string)
    requires t != [] && t[0] !in s
    ensures !Contains(s, t)
  {
    forall i | 0 <= i <= |s| - |t| ensures !OccursAt(s, t, i) {
      assert s[i..i + |t|][0] == s[i] != t[0];
    }
  }

  /** A text lacking one of the characters of `t` cannot contain `t`. */
  lemma NotContainsMissingChar(s: string, t: string, k: nat)
    requires k < |t| && t[k] !in s
    ensures !Contains(s, t)
  {
    forall i | 0 <= i <= |s| - |t| ensures !OccursAt(s, t, i) {
      assert s[i..i + |t|][k] == s[i + k];
    }
  }

  /** A prefix without the first character of `t` adds no occurrence of `t`. */
  lemma ContainsAfterPrefix(x: string, y: string, t: string)
    requires t != [] && t[0] !in x
    ensures Contains(x + y, t) == Contains(y, t)
  {
    if Contains(x + y, t) {
      var i :| OccursAt(x + y, t, i);
      assert (x + y)[i..i + |t|][0] == (x + y)[i];
      assert y[i - |x|..i - |x| + |t|] == (x + y)[i..i + |t|];
      assert OccursAt(y, t, i - |x|);
    }
    if Contains(y, t) {
      var i :| OccursAt(y, t, i);
      assert (x + y)[i + |x|..i + |x| + |t|] == y[i..i + |t|];
      assert OccursAt(x + y, t, i + |x|);
    }
  }

  /** Python's `sep.join(parts)`. */
  function Join(parts: seq<string>, sep: string): string
  {
    if |parts| == 0 then ""
    else if |parts| == 1 then parts[0]
    else parts[0] + sep + Join(parts[1..], sep)
  }

  /** A join starts with its first part and ends with its last. */
  lemma {:induction false} JoinEnds(parts: seq<string>, sep: string)
    requires |parts| >= 1
    ensures StartsWith(Join(parts, sep), parts[0])
    ensures var last := parts[|parts| - 1];
      |last| <= |Join(parts, sep)| && Join(parts, sep)[|Join(parts, sep)| - |last|..] == last
  {
    if |parts| > 1 {
      JoinEnds(parts[1..], sep);
      var rest := Join(parts[1..], sep);
      assert Join(parts, sep) == parts[0] + (sep + rest);
      assert parts[1..][|parts[1..]| - 1] == parts[|parts| - 1];
    }
  }

  /** Every character of a join comes from a part or from the separator. */
  lemma {:induction false} JoinChars(parts: seq<string>, sep: string)
    ensures forall x :: x in Join(parts, sep) ==> x in sep || exists i :: 0 <= i < |parts| && x in parts[i]
  {
    if |parts| > 1 {
      JoinChars(parts[1..], sep);
      forall x | x in Join(parts, sep) ensures x in sep || exists i :: 0 <= i < |parts| && x in parts[i] {
        assert Join(parts, sep) == parts[0] + sep + Join(parts[1..], sep);
        if x !in parts[0] && x !in sep {
          var i :| 0 <= i < |parts[1..]| && x in parts[1..][i];
          assert x in parts[i + 1];
        }
      }
    }
  }

  /** Python's `s.replace(c, t)` for a one-character pattern `c`: every `c`
      becomes `t`, every other character is kept. */
  function Substitute(s: string, c: char, t: string): (r: string)
    ensures c !in s ==> r == s
    ensures c !in t ==> c !in r
    ensures forall x :: x in r ==> (x in s && x != c) || x in t
  {
    if s == [] then []
    else (if s[0] == c then t else [s[0]]) + Substitute(s[1..], c, t)
  }

  lemma ConcatAssociates(a: string, b: string, c: string)
    ensures a + (b + c) == a + b + c
  {
  }

  /** A character in neither the text nor the replacement is not in the result. */
  lemma SubstituteAbsent(s: string, c: char, t: string, x: char)
    requires x !in s && x !in t
    ensures x !in Substitute(s, c, t)
  {
  }

  /** Replacing a character by one character keeps the length and acts position by position. */
  lemma {:induction false} SubstituteByChar(s: string, c: char, d: char)
    ensures |Substitute(s, c, [d])| == |s|
    ensures forall i :: 0 <= i < |s| ==> Substitute(s, c, [d])[i] == if s[i] == c then d else s[i]
  {
    if s != [] {
      SubstituteByChar(s[1..], c, d);
      var head: string := if s[0] == c then [d] else [s[0]];
      assert Substitute(s, c, [d]) == head + Substitute(s[1..], c, [d]);
      forall i | 0 <= i < |s|
        ensures Substitute(s, c, [d])[i] == if s[i] == c then d else s[i]
      {
        if i > 0 { assert s[i] == s[1..][i - 1]; }
      }
    }
  }

  lemma {:induction false} SubstituteConcat(a: string, b: string, c: char, t: string)
    ensures Substitute(a + b, c, t) == Substitute(a, c, t) + Substitute(b, c, t)
  {
    if a == [] {
      assert a + b == b;
    } else {
      assert (a + b)[1..] == a[1..] + b;
      SubstituteConcat(a[1..], b, c, t);
    }
  }

  /** Replacing the separator of a join is joining with the replacement. */
  lemma {:induction false} SubstituteJoin(parts: seq<string>, c: char, t: string)
    requires forall i :: 0 <= i < |parts| ==> c !in parts[i]
    ensures Substitute(Join(parts, [c]), c, t) == Join(parts, t)
  {
    if |parts| > 1 {
      var rest := Join(parts[1..], [c]);
      assert Join(parts, [c]) == parts[0] + ([c] + rest);
      SubstituteConcat(parts[0], [c] + rest, c, t);
      SubstituteConcat([c], rest, c, t);
      assert Substitute([c], c, t) == t + [] by { assert [c][1..] == []; }
      SubstituteJoin(parts[1..], c, t);
      assert t + [] == t;
    }
  }

  /** A replacement whose result no longer holds the pattern changes nothing when repeated. */
  lemma SubstituteIdempotent(s: string, c: char, t: string)
    requires c !in t
    ensures Substitute(Substitute(s, c, t), c, t) == Substitute(s, c, t)
  {
  }

  /** Python's `s.split(sep)` for a non-empty separator: the pieces between the
      non-overlapping occurrences of `sep`, taken from left to right. */
  function Split(s: string, sep: string): (parts: seq<string>)
    requires sep != []
    ensures |parts| >= 1
    ensures Join(parts, sep) == s
    ensures |sep| == 1 ==> forall i :: 0 <= i < |parts| ==> sep[0] !in parts[i]
  {
    SplitFrom(s, sep, [])
  }

  /** `Split` with the text already scanned of the current piece. */
  function SplitFrom(s: string, sep: string, piece: string): (parts: seq<string>)
    requires sep != []
    ensures |parts| >= 1
    ensures Join(parts, sep) == piece + s
    ensures |sep| == 1 && sep[0] !in piece ==> forall i :: 0 <= i < |parts| ==> sep[0] !in parts[i]
    decreases |s|
  {
    if |s| < |sep| then [piece + s]
    else if s[..|sep|] == sep then
      var rest := SplitFrom(s[|sep|..], sep, []);
      assert ([piece] + rest)[1..] == rest;
      assert s == sep + s[|sep|..];
      [piece] + rest
    else
      assert piece + s == (piece + [s[0]]) + s[1..];
      SplitFrom(s[1..], sep, piece + [s[0]])
  }

  lemma {:induction false} SplitFromWithoutSeparator(p: string, rest: string, sep: string, piece: string)
    requires sep != [] && sep[0] !in p
    ensures SplitFrom(p + rest, sep, piece) == SplitFrom(rest, sep, piece + p)
    decreases |p|
  {
    if p == [] {
      assert p + rest == rest;
      assert piece + p == piece;
    } else if |p + rest| < |sep| {
      assert piece + (p + rest) == (piece + p) + rest;
    } else {
      assert (p + rest)[..|sep|][0] == p[0];
      assert (p + rest)[1..] == p[1..] + rest;
      SplitFromWithoutSeparator(p[1..], rest, sep, piece + [p[0]]);
      assert piece + [p[0]] + p[1..] == piece + p;
    }
  }

  lemma {:induction false} SplitFromOfJoin(parts: seq<string>, sep: string, piece: string)
    requires sep != [] && |parts| >= 1
    requires forall i :: 0 <= i < |parts| ==> sep[0] !in parts[i]
    ensures SplitFrom(Join(parts, sep), sep, piece) == [piece + parts[0]] + parts[1..]
    decreases |parts|
  {
    if |parts| == 1 {
      SplitFromWithoutSeparator(parts[0], [], sep, piece);
      assert parts[0] + [] == parts[0];
      assert piece + parts[0] + [] == piece + parts[0];
    } else {
      var tail := Join(parts[1..], sep);
      assert Join(parts, sep) == parts[0] + (sep + tail);
      SplitFromWithoutSeparator(parts[0], sep + tail, sep, piece);
      assert (sep + tail)[..|sep|] == sep;
      assert (sep + tail)[|sep|..] == tail;
      SplitFromOfJoin(parts[1..], sep, []);
      assert [] + parts[1..][0] == parts[1];
      assert [parts[1]] + parts[1..][1..] == parts[1..];
    }
  }

  /** Splitting undoes joining with the same separator when no piece holds the
      separator's first character. */
  lemma SplitOfJoin(parts: seq<string>, sep: string)
    requires sep != [] && |parts| >= 1
    requires forall i :: 0 <= i < |parts| ==> sep[0] !in parts[i]
    ensures Split(Join(parts, sep), sep) == parts
  {
    SplitFromOfJoin(parts, sep, []);
    assert [] + parts[0] == parts[0];
    assert [parts[0]] + parts[1..] == parts;
  }

  /** Splitting at the first separator: the text before it, then the pieces of the rest. */
  lemma SplitAtFirst(a: string, c: char, b: string)
    requires c !in a
    ensures Split(a + [c] + b, [c]) == [a] + Split(b, [c])
  {
    SplitFromWithoutSeparator(a, [c] + b, [c], []);
    assert a + [c] + b == a + ([c] + b);
    assert ([c] + b)[..1] == [c];
    assert ([c] + b)[1..] == b;
    assert [] + a == a;
  }

  /** A text splits into a single piece exactly when it holds no separator. */
  lemma SplitSingle(s: string, c: char)
    ensures |Split(s, [c])| == 1 <==> c !in s
  {
    var parts := Split(s, [c]);
    if |parts| == 1 {
      assert s == parts[0];
    } else {
      assert s == parts[0] + [c] + Join(parts[1..], [c]);
      assert s[|parts[0]|] == c;
    }
  }

  /** Python's `s.split(c)[0]`: the text before the first `c`, or all of `s`. */
  function UpTo(s: string, c: char): (r: string)
    ensures c !in r
    ensures StartsWith(s, r)
    ensures r == s || StartsWith(s, r + [c])
  {
    var parts := Split(s, [c]);
    assert s == Join(parts, [c]);
    if |parts| == 1 then parts[0]
    else
      assert s == parts[0] + [c] + Join(parts[1..], [c]);
      assert s[..|parts[0]|] == parts[0];
      assert s[..|parts[0]| + 1] == parts[0] + [c];
      parts[0]
  }

  lemma UpToOfJoin(a: string, c: char, b: string)
    requires c !in a
    ensures UpTo(a + [c] + b, c) == a
  {
    SplitFromWithoutSeparator(a, [c] + b, [c], []);
    assert a + [c] + b == a + ([c] + b);
    assert ([c] + b)[..1] == [c];
    assert ([c] + b)[1..] == b;
    assert [] + a == a;
  }

  /** The characters Python's `str.isspace` accepts. */
  predicate IsSpace(ch: char) {
    || ('\t' <= ch <= '\r')
    || ('\U{1C}' <= ch <= ' ')
    || ch == '\U{85}' || ch == '\U{A0}' || ch == '\U{1680}'
    || ('\U{2000}' <= ch <= '\U{200A}')
    || ch == '\U{2028}' || ch == '\U{2029}' || ch == '\U{202F}' || ch == '\U{205F}' || ch == '\U{3000}'
  }

  predicate NoSpace(w: string) {
    forall j :: 0 <= j < |w| ==> !IsSpace(w[j])
  }

  /** Python's `s.split()` with no argument: the maximal runs of non-space characters. */
  function Words(s: string): (words: seq<string>)
    ensures forall i :: 0 <= i < |words| ==> words[i] != [] && NoSpace(words[i])
    ensures forall i, x :: 0 <= i < |words| && x in words[i] ==> x in s
  {
    WordsFrom(s, [])
  }

  /** `Words` with the current word already scanned. */
  function WordsFrom(s: string, word: string): (words: seq<string>)
    requires NoSpace(word)
    ensures forall i :: 0 <= i < |words| ==> words[i] != [] && NoSpace(words[i])
    ensures forall i, x :: 0 <= i < |words| && x in words[i] ==> x in s || x in word
    decreases |s|
  {
    if s == [] then (if word == [] then [] else [word])
    else if IsSpace(s[0]) then
      assert forall x :: x in s[1..] ==> x in s;
      (if word == [] then [] else [word]) + WordsFrom(s[1..], [])
    else
      assert forall x :: x in s[1..] ==> x in s;
      assert forall x :: x in word + [s[0]] ==> x in word || x == s[0];
      WordsFrom(s[1..], word + [s[0]])
  }

  lemma {:induction false} WordsFromWord(w: string, rest: string, word: string)
    requires NoSpace(w) && NoSpace(word)
    ensures WordsFrom(w + rest, word) == WordsFrom(rest, word + w)
    decreases |w|
  {
    if w == [] {
      assert w + rest == rest;
      assert word + w == word;
    } else {
      assert (w + rest)[0] == w[0];
      assert (w + rest)[1..] == w[1..] + rest;
      WordsFromWord(w[1..], rest, word + [w[0]]);
      assert word + [w[0]] + w[1..] == word + w;
    }
  }

  /** No space at either end and never two spaces in a row. */
  predicate SingleSpaced(t: string) {
    && (t != [] ==> t[0] != ' ' && t[|t| - 1] != ' ')
    && forall i :: 0 <= i < |t| - 1 ==> !(t[i] == ' ' && t[i + 1] == ' ')
  }

  /** Joining non-empty space-free words with one space gives single-spaced text
      made of the words' characters and spaces. */
  lemma {:induction false} JoinWordsSingleSpaced(words: seq<string>)
    requires forall i :: 0 <= i < |words| ==> words[i] != [] && NoSpace(words[i])
    ensures SingleSpaced(Join(words, " "))
    ensures forall x :: x in Join(words, " ") ==> x == ' ' || exists i :: 0 <= i < |words| && x in words[i]
  {
    if |words| == 1 {
      forall j | 0 <= j < |words[0]| ensures words[0][j] != ' ' { assert !IsSpace(words[0][j]); }
    } else if |words| > 1 {
      var w := words[0];
      var tail := Join(words[1..], " ");
      JoinWordsSingleSpaced(words[1..]);
      assert forall j :: 0 <= j < |w| ==> w[j] != ' ' by {
        forall j | 0 <= j < |w| ensures w[j] != ' ' { assert !IsSpace(w[j]); }
      }
      var t := w + " " + tail;
      assert Join(words, " ") == t;
      assert tail != [] by { assert |Join(words[1..], " ")| >= |words[1]|; }
      forall i | 0 <= i < |t| - 1 ensures !(t[i] == ' ' && t[i + 1] == ' ') {
        if i < |w| - 1 {
        } else if i == |w| - 1 {
        } else if i == |w| {
          assert t[i + 1] == tail[0];
        } else {
          assert t[i] == tail[i - |w| - 1] && t[i + 1] == tail[i - |w|];
        }
      }
      assert t[|t| - 1] == tail[|tail| - 1];
      forall x | x in t ensures x == ' ' || exists i :: 0 <= i < |words| && x in words[i] {
        if x in w {
          assert x in words[0];
        } else if x in tail && x != ' ' {
          var i :| 0 <= i < |words[1..]| && x in words[1..][i];
          assert x in words[i + 1];
        }
      }
    }
  }

  lemma JoinLength(words: seq<string>, sep: string)
    requires |words| >= 1
    ensures |Join(words, sep)| >= |words[0]|
  {
  }

  /** `s.split()` recovers the words that `' '.join` glued together. */
  lemma {:induction false} WordsOfJoin(words: seq<string>)
    requires forall i :: 0 <= i < |words| ==> words[i] != [] && NoSpace(words[i])
    ensures Words(Join(words, " ")) == words
  {
    WordsFromOfJoin(words, []);
    if words != [] {
      assert [] + words[0] == words[0];
      assert [words[0]] + words[1..] == words;
    }
  }

  lemma {:induction false} WordsFromOfJoin(words: seq<string>, word: string)
    requires forall i :: 0 <= i < |words| ==> words[i] != [] && NoSpace(words[i])
    requires NoSpace(word)
    requires words == [] ==> word == []
    ensures WordsFrom(Join(words, " "), word) == if words == [] then [] else [word + words[0]] + words[1..]
    decreases |words|
  {
    if |words| == 1 {
      WordsFromWord(words[0], [], word);
      assert words[0] + [] == words[0];
      assert WordsFrom([], word + words[0]) == [word + words[0]];
    } else if |words| > 1 {
      var tail := Join(words[1..], " ");
      assert Join(words, " ") == words[0] + (" " + tail);
      WordsFromWord(words[0], " " + tail, word);
      var w := word + words[0];
      assert w != [];
      assert (" " + tail)[0] == ' ' && (" " + tail)[1..] == tail;
      assert WordsFrom(" " + tail, w) == [w] + WordsFrom(tail, []);
      WordsFromOfJoin(words[1..], []);
      assert [] + words[1] == words[1];
      assert [words[1]] + words[2..] == words[1..];
    }
  }

  /** Upper-case letters of ASCII and of the Latin-1 block. */
  predicate IsUpper(ch: char) {
    ('A' <= ch <= 'Z') || ('\U{C0}' <= ch <= '\U{DE}' && ch != '\U{D7}')
  }

  function LowerChar(ch: char): (r: char)
    ensures !IsUpper(r)
    ensures !IsUpper(ch) ==> r == ch
  {
    if IsUpper(ch) then (ch as int + 32) as char else ch
  }

  /** Python's `s.lower()` for ASCII and Latin-1 letters. */
  function Lower(s: string): (r: string)
    ensures |r| == |s|
    ensures forall i :: 0 <= i < |s| ==> r[i] == LowerChar(s[i])
    ensures forall i :: 0 <= i < |r| ==> !IsUpper(r[i])
    ensures (forall i :: 0 <= i < |s| ==> !IsUpper(s[i])) ==> r == s
  {
    if s == [] then [] else [LowerChar(s[0])] + Lower(s[1..])
  }

  /** Python's `s.index(x)`: the first position holding `x`. */
  function IndexOf<T(==)>(s: seq<T>, x: T): (i: nat)
    requires x in s
    ensures i < |s| && s[i] == x
    ensures forall j :: 0 <= j < i ==> s[j] != x
  {
    if s[0] == x then 0 else 1 + IndexOf(s[1..], x)
  }

  predicate IsDigit(ch: char) { '0' <= ch <= '9' }

  predicate AllDigits(s: string) { forall i :: 0 <= i < |s| ==> IsDigit(s[i]) }

  /** The value of a decimal numeral. */
  function DigitsValue(s: string): nat
    requires AllDigits(s)
  {
    if s == [] then 0 else DigitsValue(s[..|s| - 1]) * 10 + (s[|s| - 1] as int - '0' as int)
  }

  function Pow10(n: nat): (p: nat)
    ensures p >= 1
  {
    if n == 0 then 1 else 10 * Pow10(n - 1)
  }

  /** Python's `s.lstrip()`: `s` without its leading white space. */
  function StripLeft(s: string): (r: string)
    ensures |r| <= |s| && r == s[|s| - |r|..]
    ensures r != [] ==> !IsSpace(r[0])
    ensures s != [] && !IsSpace(s[0]) ==> r == s
  {
    if s != [] && IsSpace(s[0]) then StripLeft(s[1..]) else s
  }

  /** Python's `s.rstrip()`: `s` without its trailing white space. */
  function StripRight(s: string): (r: string)
    ensures |r| <= |s| && r == s[..|r|]
    ensures r != [] ==> !IsSpace(r[|r| - 1])
    ensures s != [] && !IsSpace(s[|s| - 1]) ==> r == s
  {
    if s != [] && IsSpace(s[|s| - 1]) then StripRight(s[..|s| - 1]) else s
  }

  /** Python's `s.strip()`, which `int()` and `float()` apply to their argument. */
  function Strip(s: string): (r: string)
    ensures r != [] ==> !IsSpace(r[0]) && !IsSpace(r[|r| - 1])
    ensures forall x :: x in r ==> x in s
    ensures s != [] && !IsSpace(s[0]) && !IsSpace(s[|s| - 1]) ==> r == s
  {
    var left := StripLeft(s);
    var r := StripRight(left);
    var k := |s| - |left|;
    assert r == s[k..k + |r|];
    r
  }

  /** The text of a number without its sign, and the sign. */
  function Unsigned(s: string): (string, bool)
  {
    if s != [] && (s[0] == '-' || s[0] == '+') then (s[1..], s[0] == '-') else (s, false)
  }

  /** A numeral has no white space to strip and no sign. */
  lemma UnsignedOfDigits(s: string)
    ensures AllDigits(s) && s != [] ==> Unsigned(Strip(s)) == (s, false)
  {
    if AllDigits(s) && s != [] {
      assert IsDigit(s[0]) && IsDigit(s[|s| - 1]);
      assert Strip(s) == s;
    }
  }

  /** A character of the stripped text is a character at some position of the text. */
  lemma DigitOfStripped(s: string, x: char)
    requires x in Strip(s) && IsDigit(x)
    ensures exists i :: 0 <= i < |s| && IsDigit(s[i])
  {
    assert x in s;
    var i :| 0 <= i < |s| && s[i] == x;
  }

  /** Python's `int(s)` on an optional sign followed by decimal digits, with
      white space around; `None` stands for the `ValueError` raised on any
      other text. */
  function ParseInt(s: string): (r: Option<int>)
    ensures AllDigits(s) && s != [] ==> r == Some(DigitsValue(s))
    ensures r.Some? ==> exists i :: 0 <= i < |s| && IsDigit(s[i])
  {
    UnsignedOfDigits(s);
    var (body, negative) := Unsigned(Strip(s));
    if body != [] && AllDigits(body) then
      assert body[|body| - 1] in Strip(s);
      DigitOfStripped(s, body[|body| - 1]);
      var magnitude: int := DigitsValue(body);
      Some(if negative then -magnitude else magnitude)
    else None
  }

  /** Python's `float(s)` on an optional sign, decimal digits and at most one
      decimal point, with white space around; `None` stands for the
      `ValueError` raised on any other text. */
  function ParseDecimal(s: string): (r: Option<real>)
    ensures AllDigits(s) && s != [] ==> r == Some(DigitsValue(s) as real)
    ensures r.Some? ==> exists i :: 0 <= i < |s| && IsDigit(s[i])
  {
    UnsignedOfDigits(s);
    var (body, negative) := Unsigned(Strip(s));
    var magnitude := UnsignedDecimal(body);
    if magnitude.Some? then
      var i :| 0 <= i < |body| && IsDigit(body[i]);
      assert body[i] in Strip(s);
      DigitOfStripped(s, body[i]);
      Some(if negative then -magnitude.value else magnitude.value)
    else None
  }

  function UnsignedDecimal(body: string): (r: Option<real>)
    ensures AllDigits(body) && body != [] ==> r == Some(DigitsValue(body) as real)
    ensures r.Some? ==> exists i :: 0 <= i < |body| && IsDigit(body[i])
  {
    if '.' in body then
      var p := IndexOf(body, '.');
      var whole, fraction := body[..p], body[p + 1..];
      if AllDigits(whole) && AllDigits(fraction) && |whole| + |fraction| >= 1 then
        assert whole != [] ==> IsDigit(body[0]);
        assert fraction != [] ==> IsDigit(body[p + 1]);
        Some(PointValue(whole, fraction))
      else None
    else if body != [] && AllDigits(body) then Some(DigitsValue(body) as real)
    else None
  }

  /** The value of `whole.fraction`. */
  function PointValue(whole: string, fraction: string): real
    requires AllDigits(whole) && AllDigits(fraction)
  {
    DigitsValue(whole) as real + DigitsValue(fraction) as real / Pow10(|fraction|) as real
  }

  /** `float` of digits, a point and digits. */
  lemma ParseDecimalPoint(whole: string, fraction: string)
    requires AllDigits(whole) && AllDigits(fraction) && |whole| + |fraction| >= 1
    ensures ParseDecimal(whole + "." + fraction) == Some(PointValue(whole, fraction))
  {
    var s := whole + "." + fraction;
    assert s[|whole|] == '.';
    assert !IsSpace(s[0]) && !IsSpace(s[|s| - 1]);
    assert Strip(s) == s;
    assert Unsigned(s) == (s, false);
    assert forall j :: 0 <= j < |whole| ==> s[j] == whole[j] != '.';
    assert s[..|whole|] == whole && s[|whole| + 1..] == fraction;
    UnsignedDecimalAt(s, |whole|);
  }

  lemma UnsignedDecimalAt(s: string, p: nat)
    requires p < |s| && s[p] == '.' && |s| >= 2
    requires forall j :: 0 <= j < p ==> s[j] != '.'
    requires AllDigits(s[..p]) && AllDigits(s[p + 1..])
    ensures UnsignedDecimal(s) == Some(PointValue(s[..p], s[p + 1..]))
  {
    assert '.' in s;
    assert IndexOf(s, '.') == p;
  }

  /** Python's `str(n)` for a natural number, as in the f-strings that name
      the derived columns. */
  function NatText(n: nat): (s: string)
    ensures s != [] && AllDigits(s) && DigitsValue(s) == n
  {
    if n < 10 then [('0' as int + n) as char]
    else
      var s := NatText(n / 10) + [('0' as int + n % 10) as char];
      assert s[..|s| - 1] == NatText(n / 10);
      s
  }
}
