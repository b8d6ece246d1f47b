/**
 * The JavaScript string operations the extension relies on: `trim`,
 * `split` on one character, `filter(Boolean)` over strings, and the decimal
 * rendering of a number inside a template string.
 */
module JsText {
  import opened Results

  /** JavaScript truthiness of a possibly `undefined` string: present and non-empty. */
  predicate Truthy(s: Option<string>) {
    s.Some? && s.value != ""
  }

  /** The characters `String.prototype.trim` removes: ECMAScript WhiteSpace and LineTerminator. */
  predicate IsSpace(c: char) {
    || c == '\t' || c == '\n' || c == '\U{000B}' || c == '\U{000C}' || c == '\r' || c == ' '
    || c == '\U{00A0}' || c == '\U{1680}' || ('\U{2000}' <= c <= '\U{200A}')
    || c == '\U{2028}' || c == '\U{2029}' || c == '\U{202F}' || c == '\U{205F}'
    || c == '\U{3000}' || c == '\U{FEFF}'
  }

  /** `!s.trim()`: the string is empty or whitespace only. */
  predicate IsBlank(s: string) {
    forall i :: 0 <= i < |s| ==> IsSpace(s[i])
  }

  /** Number of whitespace characters `trim` drops from the front of `s`. */
  function LeadingSpaces(s: string): (n: nat)
    ensures n <= |s|
    ensures IsBlank(s[..n])
    ensures n == |s| || !IsSpace(s[n])
  {
    if |s| == 0 || !IsSpace(s[0]) then 0
    else
      var m := LeadingSpaces(s[1..]);
      assert forall i :: 1 <= i < m + 1 ==> s[i] == s[1..][..m][i - 1];
      1 + m
  }

  /** Number of whitespace characters `trim` drops from the back of `s`. */
  function TrailingSpaces(s: string): (n: nat)
    ensures n <= |s|
    ensures IsBlank(s[|s| - n..])
    ensures n == |s| || !IsSpace(s[|s| - n - 1])
  {
    if |s| == 0 || !IsSpace(s[|s| - 1]) then 0
    else
      var m := TrailingSpaces(s[..|s| - 1]);
      assert forall i :: |s| - m - 1 <= i < |s| - 1 ==> s[i] == s[..|s| - 1][i];
      1 + m
  }

  /**
   * `s.trim()`: the part of `s` between its leading and its trailing
   * whitespace.  The result is empty exactly when `s` is blank, and
   * otherwise starts and ends with a non-whitespace character.
   */
  function Trim(s: string): (r: string)
    ensures |r| <= |s|
    ensures r == [] <==> IsBlank(s)
  {
    var i := LeadingSpaces(s);
    var t := s[i..];
    var r := t[..|t| - TrailingSpaces(t)];
    assert r == [] ==> s == s[..i] + s[i..] && IsBlank(s);
    r
  }

  /**
   * `trim` removes a blank prefix and a blank suffix of `s`, as long as
   * they go, and keeps the core between them in place.
   */
  lemma {:induction false} TrimShape(s: string)
    ensures var r := Trim(s);
      && LeadingSpaces(s) + |r| <= |s|
      && r == s[LeadingSpaces(s)..LeadingSpaces(s) + |r|]
      && IsBlank(s[..LeadingSpaces(s)]) && IsBlank(s[LeadingSpaces(s) + |r|..])
      && (r == [] || (!IsSpace(r[0]) && !IsSpace(r[|r| - 1])))
  {
    TrimCore(s);
    TrimEnds(s);
  }

  /** The core `trim` keeps, as a slice of `s`, and the blank suffix after it. */
  lemma {:induction false} TrimCore(s: string)
    ensures var i := LeadingSpaces(s);
      && i + |Trim(s)| <= |s|
      && Trim(s) == s[i..i + |Trim(s)|]
      && IsBlank(s[i + |Trim(s)|..])
  {
    var i := LeadingSpaces(s);
    var n := TrailingSpaces(s[i..]);
    CoreOfSuffix(s, i, n, Trim(s));
  }

  /** Cutting `n` blank characters off the back of `s[i..]` leaves the slice `s[i..|s| - n]`. */
  lemma CoreOfSuffix(s: string, i: nat, n: nat, r: string)
    requires i + n <= |s|
    requires r == s[i..][..|s| - i - n]
    requires IsBlank(s[i..][|s| - i - n..])
    ensures i + |r| <= |s| && r == s[i..i + |r|] && IsBlank(s[i + |r|..])
  {
    SliceOfSuffix(s, i, |s| - i - n);
    SuffixOfSuffix(s, i, |s| - i - n);
  }

  /** A non-empty trimmed string starts and ends with a non-whitespace character. */
  lemma {:induction false} TrimEnds(s: string)
    ensures Trim(s) == [] || (!IsSpace(Trim(s)[0]) && !IsSpace(Trim(s)[|Trim(s)| - 1]))
  {
    var i := LeadingSpaces(s);
    var t := s[i..];
    var n := TrailingSpaces(t);
    var r := t[..|t| - n];
    assert Trim(s) == r;
    if r != [] {
      assert r[0] == s[i];
      assert r[|r| - 1] == t[|t| - n - 1];
    }
  }

  /** A prefix of a suffix of `s` is a slice of `s`. */
  lemma SliceOfSuffix(s: string, i: nat, j: nat)
    requires i + j <= |s|
    ensures s[i..][..j] == s[i..i + j]
  {
    assert forall k :: 0 <= k < j ==> s[i..][..j][k] == s[i + k];
  }

  /** A suffix of a suffix of `s` is a suffix of `s`. */
  lemma SuffixOfSuffix(s: string, i: nat, j: nat)
    requires i + j <= |s|
    ensures s[i..][j..] == s[i + j..]
  {
    assert forall k :: 0 <= k < |s| - i - j ==> s[i..][j..][k] == s[i + j + k];
  }

  /**
   * Reference characterisation of `trim`: whichever way `s` is cut into a
   * blank prefix, a core that starts and ends with non-whitespace, and a
   * blank suffix, `Trim` returns that core; a blank `s` trims to empty.
   */
  lemma TrimCharacterised(s: string, i: nat, j: nat)
    requires i <= j <= |s|
    requires IsBlank(s[..i]) && IsBlank(s[j..])
    requires (i < j && !IsSpace(s[i]) && !IsSpace(s[j - 1])) || (i == j && IsBlank(s))
    ensures Trim(s) == s[i..j]
  {
    var r := Trim(s);
    var k := LeadingSpaces(s);
    TrimShape(s);
    if i == j {
      assert r == [];
    } else {
      assert k == i;
      assert k + |r| == j;
    }
  }

  /** Trimming twice is trimming once. */
  lemma TrimIdempotent(s: string)
    ensures Trim(Trim(s)) == Trim(s)
  {
    var r := Trim(s);
    TrimShape(s);
    assert r[..0] == [] && r[|r|..] == [];
    if r == [] {
      TrimCharacterised(r, 0, 0);
    } else {
      TrimCharacterised(r, 0, |r|);
    }
  }

  /** `s.split(sep)` for a one-character separator. */
  function Split(s: string, sep: char): (parts: seq<string>)
    ensures |parts| >= 1
    ensures forall k :: 0 <= k < |parts| ==> sep !in parts[k]
  {
    if |s| == 0 then [""]
    else
      var rest := Split(s[1..], sep);
      if s[0] == sep then [""] + rest else [[s[0]] + rest[0]] + rest[1..]
  }

  /** `parts.join(sep)` for a one-character separator. */
  function Join(parts: seq<string>, sep: char): string
    requires |parts| >= 1
  {
    if |parts| == 1 then parts[0] else parts[0] + [sep] + Join(parts[1..], sep)
  }

  /** Joining the pieces of a split restores the original string. */
  lemma {:induction false} SplitThenJoin(s: string, sep: char)
    ensures Join(Split(s, sep), sep) == s
  {
    if |s| > 0 {
      var rest := Split(s[1..], sep);
      SplitThenJoin(s[1..], sep);
      if s[0] != sep && |rest| > 1 {
        assert ([[s[0]] + rest[0]] + rest[1..])[1..] == rest[1..];
      }
    }
  }

  /** Splitting a join of separator-free pieces gives those pieces back. */
  lemma {:induction false} JoinThenSplit(parts: seq<string>, sep: char)
    requires |parts| >= 1
    requires forall k :: 0 <= k < |parts| ==> sep !in parts[k]
    ensures Split(Join(parts, sep), sep) == parts
    decreases |parts|, |parts[0]|
  {
    var head := parts[0];
    if |head| == 0 {
      if |parts| > 1 {
        JoinThenSplit(parts[1..], sep);
        assert Join(parts, sep) == [sep] + Join(parts[1..], sep);
        assert ([sep] + Join(parts[1..], sep))[1..] == Join(parts[1..], sep);
        assert [""] + parts[1..] == parts;
      }
    } else {
      var shorter := [head[1..]] + parts[1..];
      JoinThenSplit(shorter, sep);
      assert head[0] in head;
      assert Join(parts, sep) == [head[0]] + Join(shorter, sep) by {
        if |parts| > 1 {
          assert shorter[1..] == parts[1..];
        }
      }
      assert ([head[0]] + Join(shorter, sep))[1..] == Join(shorter, sep);
      assert [head[0]] + shorter[0] == head;
      assert shorter[1..] == parts[1..];
      assert [[head[0]] + shorter[0]] + shorter[1..] == parts;
    }
  }

  /** `.filter(Boolean)` over strings: keep the non-empty ones, in order. */
  function NonEmpty(parts: seq<string>): (r: seq<string>)
    ensures |r| <= |parts|
    ensures forall k :: 0 <= k < |r| ==> r[k] != [] && r[k] in parts
    ensures forall p :: p in parts && p != [] ==> p in r
  {
    if |parts| == 0 then []
    else if parts[0] == [] then NonEmpty(parts[1..])
    else [parts[0]] + NonEmpty(parts[1..])
  }

  /** The filter keeps an empty string out and a non-empty one in. */
  lemma NonEmptySingle(p: string)
    ensures NonEmpty([p]) == if p == [] then [] else [p]
  {
  }

  /** Filtering consecutive lists gives consecutive results, so order and repetitions are kept. */
  lemma {:induction false} NonEmptyAppend(a: seq<string>, b: seq<string>)
    ensures NonEmpty(a + b) == NonEmpty(a) + NonEmpty(b)
    decreases |a|
  {
    if |a| == 0 {
      assert a + b == b;
    } else {
      assert (a + b)[0] == a[0];
      assert (a + b)[1..] == a[1..] + b;
      NonEmptyAppend(a[1..], b);
    }
  }

  /** `text.split('\n').filter(Boolean)`: the non-empty lines of `text`, in order. */
  function Lines(text: string): (r: seq<string>)
    ensures forall k :: 0 <= k < |r| ==> r[k] != [] && '\n' !in r[k]
  {
    var parts := Split(text, '\n');
    var r := NonEmpty(parts);
    assert forall k :: 0 <= k < |r| ==> r[k] in parts && '\n' !in r[k] by {
      forall k | 0 <= k < |r| ensures '\n' !in r[k] {
        var j :| 0 <= j < |parts| && parts[j] == r[k];
      }
    }
    r
  }

  /** A listing written one name per line reads back as its non-empty names, in order. */
  lemma LinesOfJoin(names: seq<string>)
    requires |names| >= 1
    requires forall k :: 0 <= k < |names| ==> '\n' !in names[k]
    ensures Lines(Join(names, '\n')) == NonEmpty(names)
  {
    JoinThenSplit(names, '\n');
  }

  predicate IsDigits(s: string) {
    forall i :: 0 <= i < |s| ==> '0' <= s[i] <= '9'
  }

  function DigitChar(d: nat): (c: char)
    requires d < 10
    ensures '0' <= c <= '9' && (c as int) - ('0' as int) == d
  {
    ((d + '0' as int) as char)
  }

  /** `${n}` for a non-negative integer: its decimal digits, with no leading zero. */
  function NatToString(n: nat): (s: string)
    ensures |s| >= 1 && IsDigits(s)
    ensures s[0] == '0' ==> n == 0
    decreases n
  {
    if n < 10 then [DigitChar(n)] else NatToString(n / 10) + [DigitChar(n % 10)]
  }

  /** The number a string of decimal digits denotes. */
  function DigitsValue(s: string): nat
    requires IsDigits(s)
  {
    if |s| == 0 then 0
    else DigitsValue(s[..|s| - 1]) * 10 + ((s[|s| - 1] as int) - ('0' as int))
  }

  /** The decimal rendering loses nothing: reading it back gives the number. */
  lemma {:induction false} DecimalRoundTrip(n: nat)
    ensures DigitsValue(NatToString(n)) == n
    decreases n
  {
    if n >= 10 {
      var s := NatToString(n);
      DecimalRoundTrip(n / 10);
      assert s[..|s| - 1] == NatToString(n / 10);
    }
  }
}
