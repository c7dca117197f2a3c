/**
 * The JavaScript string operations the client relies on, with the semantics
 * ECMAScript gives them: `trim`, `split` with a non-empty string separator,
 * `join`, `startsWith`, and the removal of a set of characters (a global
 * `replace` with an empty replacement).
 */
module JsText {

  /** ECMAScript WhiteSpace and LineTerminator code points: what `trim` removes. */
  predicate IsSpace(c: char) {
    c == '\t' || c == '\n' || c == '\U{000B}' || c == '\U{000C}' || c == '\r' || c == ' ' ||
    c == '\U{00A0}' || c == '\U{1680}' || ('\U{2000}' <= c <= '\U{200A}') ||
    c == '\U{2028}' || c == '\U{2029}' || c == '\U{202F}' || c == '\U{205F}' ||
    c == '\U{3000}' || c == '\U{FEFF}'
  }

  /** `!s.trim()` in the source: nothing but white space (see `Trim`). */
  predicate Blank(s: string) {
    forall k :: 0 <= k < |s| ==> IsSpace(s[k])
  }

  /** Number of occurrences of `c` in `s`. */
  function Count(c: char, s: string): (n: nat)
    ensures n <= |s|
    ensures n == 0 <==> c !in s
  {
    if s == [] then 0 else (if s[0] == c then 1 else 0) + Count(c, s[1..])
  }

  /** The number of white-space characters `s` starts with. */
  function LeadingSpaces(s: string): (n: nat)
    ensures n <= |s|
    ensures forall k :: 0 <= k < n ==> IsSpace(s[k])
    ensures n < |s| ==> !IsSpace(s[n])
  {
    if s != [] && IsSpace(s[0]) then 1 + LeadingSpaces(s[1..]) else 0
  }

  /** The number of white-space characters `s` ends with. */
  function TrailingSpaces(s: string): (n: nat)
    ensures n <= |s|
    ensures forall k :: |s| - n <= k < |s| ==> IsSpace(s[k])
    ensures n < |s| ==> !IsSpace(s[|s| - 1 - n])
  {
    if s != [] && IsSpace(s[|s| - 1]) then 1 + TrailingSpaces(s[..|s| - 1]) else 0
  }

  /**
   * `s.trim()`: the infix of `s` left after dropping the white space at both
   * ends. It is empty exactly when `s` is blank, and otherwise starts and ends
   * with a character that is not white space. Together these fix it: what is
   * cut off at either end is white space, and what is kept does not begin or
   * end with any.
   */
  function Trim(s: string): (r: string)
    ensures |r| <= |s|
    ensures r != [] ==> !IsSpace(r[0]) && !IsSpace(r[|r| - 1])
    ensures r == [] <==> Blank(s)
  {
    var i := LeadingSpaces(s);
    var j := |s| - TrailingSpaces(s[i..]);
    assert i == |s| ==> Blank(s);
    assert i < |s| ==> !Blank(s) && s[i..][0] == s[i] && i < j;
    s[i..j]
  }

  /** What trimming removes is white space, from the two ends only: the result is an infix. */
  lemma TrimIsInfix(s: string)
    ensures exists i, j :: 0 <= i <= j <= |s| && Trim(s) == s[i..j] && Blank(s[..i]) && Blank(s[j..])
  {
    var i := LeadingSpaces(s);
    var j := |s| - TrailingSpaces(s[i..]);
    assert Trim(s) == s[i..j];
    assert Blank(s[..i]) && Blank(s[j..]);
  }

  /** Trimming keeps an infix of the string: no new character appears. */
  lemma TrimDrawsFrom(s: string)
    ensures forall x :: x in Trim(s) ==> x in s
  {
  }

  /** Trimming twice changes nothing more. */
  lemma TrimIdempotent(s: string)
    ensures Trim(Trim(s)) == Trim(s)
  {
    var r := Trim(s);
    if r != [] {
      assert LeadingSpaces(r) == 0;
      assert TrailingSpaces(r) == 0;
      assert r[0..] == r;
    }
  }

  /** `s.startsWith(prefix)`. */
  predicate StartsWith(s: string, prefix: string) {
    |prefix| <= |s| && s[..|prefix|] == prefix
  }

  /** `sep` occurs in `s` at position `k`. */
  predicate OccursAt(s: string, sep: string, k: int) {
    0 <= k && k + |sep| <= |s| && s[k..k + |sep|] == sep
  }

  /**
   * `s.split(sep)` for a non-empty string separator: scanning left to right,
   * each occurrence of `sep` ends one piece and starts the next.
   */
  function Split(s: string, sep: string): (pieces: seq<string>)
    requires sep != []
    ensures pieces != []
    decreases |s|
  {
    if StartsWith(s, sep) then [[]] + Split(s[|sep|..], sep)
    else if s == [] then [[]]
    else
      var rest := Split(s[1..], sep);
      [[s[0]] + rest[0]] + rest[1..]
  }

  /** `parts.join(sep)`. */
  function Join(sep: string, parts: seq<string>): (s: string)
    ensures parts == [] ==> s == []
    ensures parts != [] ==> parts[0] <= s
    ensures |parts| == 1 ==> s == parts[0]
  {
    if parts == [] then []
    else if |parts| == 1 then parts[0]
    else parts[0] + sep + Join(sep, parts[1..])
  }

  /** Prepending a character to the first part prepends it to the joined string. */
  lemma JoinCons(sep: string, c: char, parts: seq<string>)
    requires parts != []
    ensures Join(sep, [[c] + parts[0]] + parts[1..]) == [c] + Join(sep, parts)
  {
    var moved := [[c] + parts[0]] + parts[1..];
    if |parts| > 1 {
      assert moved[1..] == parts[1..];
      assert Join(sep, moved) == ([c] + parts[0]) + sep + Join(sep, parts[1..]);
    }
  }

  /** Joining the pieces again with the separator gives back the string. */
  lemma {:induction false} JoinSplit(s: string, sep: string)
    requires sep != []
    ensures Join(sep, Split(s, sep)) == s
    decreases |s|
  {
    if StartsWith(s, sep) {
      var rest := Split(s[|sep|..], sep);
      JoinSplit(s[|sep|..], sep);
      assert Split(s, sep) == [[]] + rest;
      assert ([[]] + rest)[1..] == rest;
      assert Join(sep, [[]] + rest) == [] + sep + s[|sep|..];
      assert s == s[..|sep|] + s[|sep|..];
    } else if s != [] {
      var rest := Split(s[1..], sep);
      JoinSplit(s[1..], sep);
      JoinCons(sep, s[0], rest);
      assert Split(s, sep) == [[s[0]] + rest[0]] + rest[1..];
      assert s == [s[0]] + s[1..];
    }
  }

  /** The first piece is a prefix of the string. */
  lemma {:induction false} SplitFirstIsPrefix(s: string, sep: string)
    requires sep != []
    ensures Split(s, sep)[0] <= s
    decreases |s|
  {
    if StartsWith(s, sep) {
    } else if s == [] {
    } else {
      SplitFirstIsPrefix(s[1..], sep);
      assert s == [s[0]] + s[1..];
    }
  }

  /** No piece contains the separator: every occurrence was cut out. */
  lemma {:induction false} SplitPiecesHaveNoSeparator(s: string, sep: string)
    requires sep != []
    ensures forall p, k :: p in Split(s, sep) ==> !OccursAt(p, sep, k)
    decreases |s|
  {
    if StartsWith(s, sep) {
      SplitPiecesHaveNoSeparator(s[|sep|..], sep);
      assert Split(s, sep) == [[]] + Split(s[|sep|..], sep);
    } else if s == [] {
    } else {
      var rest := Split(s[1..], sep);
      SplitPiecesHaveNoSeparator(s[1..], sep);
      SplitFirstIsPrefix(s[1..], sep);
      var first := [s[0]] + rest[0];
      assert first <= s;
      forall k | OccursAt(first, sep, k) ensures false {
        if k != 0 {
          assert first[k..k + |sep|] == rest[0][k - 1..k - 1 + |sep|];
          assert OccursAt(rest[0], sep, k - 1);
        }
      }
      assert Split(s, sep) == [first] + rest[1..];
      forall p | p in rest[1..] ensures p in rest { }
    }
  }

  /** Splitting on one character gives one piece more than there are occurrences of it. */
  lemma {:induction false} SplitCharCount(s: string, c: char)
    ensures |Split(s, [c])| == Count(c, s) + 1
    decreases |s|
  {
    if StartsWith(s, [c]) {
      SplitCharCount(s[1..], c);
      assert s[..1] == [c] && s[0] == c;
    } else if s == [] {
    } else {
      SplitCharCount(s[1..], c);
      assert s[0] != c by { assert s[..1] == [s[0]]; }
    }
  }

  /** Splitting on one character leaves that character in no piece. */
  lemma SplitCharPiecesLackIt(s: string, c: char)
    ensures forall p :: p in Split(s, [c]) ==> c !in p
  {
    SplitPiecesHaveNoSeparator(s, [c]);
    forall p | p in Split(s, [c]) ensures c !in p {
      if c in p {
        var k :| 0 <= k < |p| && p[k] == c;
        assert OccursAt(p, [c], k);
      }
    }
  }

  /** Every character of a piece comes from the string. */
  lemma {:induction false} SplitPiecesDrawFrom(s: string, sep: string)
    requires sep != []
    ensures forall p, x :: p in Split(s, sep) && x in p ==> x in s
    decreases |s|
  {
    if StartsWith(s, sep) {
      SplitPiecesDrawFrom(s[|sep|..], sep);
      assert Split(s, sep) == [[]] + Split(s[|sep|..], sep);
      forall x | x in s[|sep|..] ensures x in s { }
    } else if s == [] {
    } else {
      var rest := Split(s[1..], sep);
      SplitPiecesDrawFrom(s[1..], sep);
      assert Split(s, sep) == [[s[0]] + rest[0]] + rest[1..];
      forall x | x in s[1..] ensures x in s { }
      forall p | p in rest[1..] ensures p in rest { }
    }
  }

  /** No occurrence of `sep` starts before position `i`. */
  predicate FirstOccurrence(s: string, sep: string, i: int) {
    OccursAt(s, sep, i) && forall k :: 0 <= k < i ==> !OccursAt(s, sep, k)
  }

  /** Dropping the first character shifts every occurrence one place to the left. */
  lemma OccursInTail(s: string, sep: string, k: nat)
    requires s != []
    ensures OccursAt(s[1..], sep, k) <==> OccursAt(s, sep, k + 1)
  {
    if k + |sep| <= |s| - 1 {
      assert s[1..][k..k + |sep|] == s[k + 1..k + 1 + |sep|];
    }
  }

  /** An occurrence at position 0 is a prefix. */
  lemma OccursAtStart(s: string, sep: string)
    ensures OccursAt(s, sep, 0) <==> StartsWith(s, sep)
  {
    if |sep| <= |s| {
      assert s[..|sep|] == s[0..|sep|];
    }
  }

  /**
   * `split` cuts at the leftmost occurrence of the separator: when it first
   * occurs at `i`, the first piece is the text before it and the other pieces
   * are the split of the text after it. This holds for a separator that
   * overlaps itself, such as `\n---\n`, as well.
   */
  lemma {:induction false} SplitAtFirstOccurrence(s: string, sep: string, i: nat)
    requires sep != [] && FirstOccurrence(s, sep, i)
    ensures Split(s, sep) == [s[..i]] + Split(s[i + |sep|..], sep)
    decreases i
  {
    OccursAtStart(s, sep);
    if i == 0 {
      assert s[..0] == [];
    } else {
      var t := s[1..];
      OccursInTail(s, sep, i - 1);
      forall k | 0 <= k < i - 1 ensures !OccursAt(t, sep, k) {
        OccursInTail(s, sep, k);
      }
      SplitAtFirstOccurrence(t, sep, i - 1);
      var after := Split(s[i + |sep|..], sep);
      assert t[i - 1 + |sep|..] == s[i + |sep|..];
      var rest := Split(t, sep);
      assert rest == [t[..i - 1]] + after;
      assert rest[0] == t[..i - 1] && rest[1..] == after;
      assert Split(s, sep) == [[s[0]] + rest[0]] + rest[1..];
      PrefixCons(s, i);
    }
  }

  /** A prefix of `s` is its first character followed by the prefix of the tail. */
  lemma PrefixCons(s: string, i: nat)
    requires 0 < i <= |s|
    ensures [s[0]] + s[1..][..i - 1] == s[..i]
  {
    assert forall k :: 0 <= k < i ==> ([s[0]] + s[1..][..i - 1])[k] == s[..i][k];
  }

  /** Without any occurrence of the separator, `split` gives the whole string as the one piece. */
  lemma {:induction false} SplitWithoutSeparator(s: string, sep: string)
    requires sep != [] && forall k :: !OccursAt(s, sep, k)
    ensures Split(s, sep) == [s]
    decreases |s|
  {
    OccursAtStart(s, sep);
    if s != [] {
      var t := s[1..];
      forall k ensures !OccursAt(t, sep, k) {
        if k >= 0 {
          OccursInTail(s, sep, k);
        }
      }
      SplitWithoutSeparator(t, sep);
      assert [s[0]] + t == s;
    }
  }

  /**
   * When `c` first occurs at index `i`, the first piece of `s.split(c)` is the
   * text before it and the other pieces, joined again with `c`, are the text
   * after it, later occurrences of `c` included.
   */
  lemma SplitAtFirst(s: string, c: char, i: nat)
    requires i < |s| && s[i] == c && c !in s[..i]
    ensures Split(s, [c])[0] == s[..i]
    ensures Join([c], Split(s, [c])[1..]) == s[i + 1..]
  {
    FirstCharOccurrence(s, c, i);
    SplitAtFirstOccurrence(s, [c], i);
    var rest := Split(s[i + 1..], [c]);
    JoinSplit(s[i + 1..], [c]);
    assert ([s[..i]] + rest)[1..] == rest;
  }

  /** The first index holding `c` is the first occurrence of the one-character separator `[c]`. */
  lemma FirstCharOccurrence(s: string, c: char, i: nat)
    requires i < |s| && s[i] == c && c !in s[..i]
    ensures FirstOccurrence(s, [c], i)
  {
    forall k | 0 <= k < i ensures !OccursAt(s, [c], k) {
      assert s[..i][k] == s[k] != c;
      assert s[k..k + 1][0] == s[k];
    }
    assert s[i..i + 1] == [c];
  }

  /** Removal on a string with a given first character. */
  lemma RemoveAllCons(x: char, s: string, chars: set<char>)
    ensures RemoveAll([x] + s, chars) == if x in chars then RemoveAll(s, chars) else [x] + RemoveAll(s, chars)
  {
    assert ([x] + s)[0] == x && ([x] + s)[1..] == s;
  }

  /** The removal keeps the order of what stays: it distributes over concatenation. */
  lemma {:induction false} RemoveAllAppend(a: string, b: string, chars: set<char>)
    ensures RemoveAll(a + b, chars) == RemoveAll(a, chars) + RemoveAll(b, chars)
  {
    if a == [] {
      assert a + b == b;
    } else {
      var x, t := a[0], a[1..];
      assert a == [x] + t && a + b == [x] + (t + b);
      RemoveAllAppend(t, b, chars);
      RemoveAllCons(x, t + b, chars);
      RemoveAllCons(x, t, chars);
      var kept, rest := RemoveAll(t, chars), RemoveAll(b, chars);
      if x in chars {
        assert RemoveAll(a + b, chars) == kept + rest;
        assert RemoveAll(a, chars) == kept;
      } else {
        assert RemoveAll(a + b, chars) == [x] + (kept + rest);
        assert RemoveAll(a, chars) == [x] + kept;
        assert [x] + (kept + rest) == ([x] + kept) + rest;
      }
    }
  }

  /** `s.replace(/[chars]/g, '')`: every character listed in `chars` removed. */
  function RemoveAll(s: string, chars: set<char>): (r: string)
    ensures forall x {:trigger x in r} :: x in r <==> x in s && x !in chars
    ensures forall c {:trigger Count(c, r)} :: c !in chars ==> Count(c, r) == Count(c, s)
  {
    if s == [] then []
    else if s[0] in chars then RemoveAll(s[1..], chars)
    else [s[0]] + RemoveAll(s[1..], chars)
  }

  predicate IsDigit(c: char) {
    '0' <= c <= '9'
  }

  /** `n.toString()` for a non-negative integer below 10^21: its decimal digits, most significant first. */
  function DecimalString(n: nat): (s: string)
    ensures s != []
    ensures forall k :: 0 <= k < |s| ==> IsDigit(s[k])
    ensures s[0] == '0' ==> n == 0
  {
    if n < 10 then ['0' + n as char]
    else DecimalString(n / 10) + ['0' + (n % 10) as char]
  }

  /** The number a string of decimal digits denotes. */
  function DigitsValue(s: string): nat
    requires forall k :: 0 <= k < |s| ==> IsDigit(s[k])
  {
    if s == [] then 0
    else
      assert IsDigit(s[|s| - 1]);
      DigitsValue(s[..|s| - 1]) * 10 + (s[|s| - 1] as int - '0' as int)
  }

  /** Reading the decimal string back gives the number: distinct numbers print differently. */
  lemma {:induction false} DecimalStringRoundTrip(n: nat)
    ensures DigitsValue(DecimalString(n)) == n
  {
    if n >= 10 {
      var s := DecimalString(n);
      DecimalStringRoundTrip(n / 10);
      assert s[..|s| - 1] == DecimalString(n / 10);
    }
  }
}
