/**
 * The pieces of Go's `strings`, `unicode` and `fmt` packages that the core
 * relies on, over `string` = `seq<char>` with one element per rune.
 */
module Text {

  /** `unicode.IsSpace`: the characters `strings.TrimSpace` strips. */
  predicate IsSpace(c: char) {
    c == ' ' || c == '\t' || c == '\n' || c == '\U{000B}' || c == '\U{000C}' || c == '\r'
    || c == '\U{0085}' || c == '\U{00A0}' || c == '\U{1680}'
    || ('\U{2000}' <= c <= '\U{200A}')
    || c == '\U{2028}' || c == '\U{2029}' || c == '\U{202F}' || c == '\U{205F}' || c == '\U{3000}'
  }

  /** Every character is white space (vacuously true of ""). */
  predicate IsBlank(s: string) {
    forall i :: 0 <= i < |s| ==> IsSpace(s[i])
  }

  lemma BlankConcat(a: string, b: string)
    requires IsBlank(a) && IsBlank(b)
    ensures IsBlank(a + b)
  {
    forall i | 0 <= i < |a + b| ensures IsSpace((a + b)[i]) {
      if i >= |a| { assert (a + b)[i] == b[i - |a|]; }
    }
  }

  /** The first index at or after `from` whose character is not white space, or `|s|`. */
  function SkipSpaces(s: string, from: nat): (n: nat)
    requires from <= |s|
    ensures from <= n <= |s|
    ensures forall k :: from <= k < n ==> IsSpace(s[k])
    ensures n < |s| ==> !IsSpace(s[n])
    decreases |s| - from
  {
    if from < |s| && IsSpace(s[from]) then SkipSpaces(s, from + 1) else from
  }

  /** Going back from `hi` but not past `lo`: the index just after the last character that is not white space. */
  function SkipSpacesBack(s: string, lo: nat, hi: nat): (n: nat)
    requires lo <= hi <= |s|
    ensures lo <= n <= hi
    ensures forall k :: n <= k < hi ==> IsSpace(s[k])
    ensures n > lo ==> !IsSpace(s[n - 1])
    decreases hi
  {
    if hi > lo && IsSpace(s[hi - 1]) then SkipSpacesBack(s, lo, hi - 1) else hi
  }

  /**
   * `strings.TrimSpace`: the text between the leading and the trailing white
   * space; "" when the text is blank, the text itself when neither end is
   * white space.
   */
  function TrimSpace(s: string): (r: string)
    ensures r == [] <==> IsBlank(s)
    ensures r != [] ==> !IsSpace(r[0]) && !IsSpace(r[|r| - 1])
    ensures s != [] && !IsSpace(s[0]) && !IsSpace(s[|s| - 1]) ==> r == s
  {
    var i := SkipSpaces(s, 0);
    var j := SkipSpacesBack(s, i, |s|);
    assert i == j ==> IsBlank(s);
    s[i..j]
  }

  /** Any text is its leading white space, its trimmed form and its trailing white space. */
  lemma TrimSpaceSplits(pre: string, s: string) returns (lead: string, trail: string)
    ensures IsBlank(lead) && IsBlank(trail) && pre + s == pre + lead + TrimSpace(s) + trail
  {
    var i := SkipSpaces(s, 0);
    var j := SkipSpacesBack(s, i, |s|);
    lead, trail := s[..i], s[j..];
    assert IsBlank(lead) by {
      forall k | 0 <= k < |lead| ensures IsSpace(lead[k]) {
        assert lead[k] == s[k];
      }
    }
    assert IsBlank(trail) by {
      forall k | 0 <= k < |trail| ensures IsSpace(trail[k]) {
        assert trail[k] == s[j + k];
      }
    }
    assert s == lead + TrimSpace(s) + trail by {
      assert TrimSpace(s) == s[i..j];
    }
    AppendFour(pre, lead, TrimSpace(s), trail);
  }

  lemma AppendAssoc(a: string, b: string, c: string)
    ensures a + b + c == a + (b + c)
  {
  }

  lemma AppendFour(a: string, b: string, c: string, d: string)
    ensures a + (b + c + d) == a + b + c + d
  {
  }

  predicate OccursAt(s: string, sub: string, i: int) {
    0 <= i && i + |sub| <= |s| && s[i..i + |sub|] == sub
  }

  /** `strings.Contains`. */
  predicate Contains(s: string, sub: string) {
    exists i :: 0 <= i <= |s| - |sub| && OccursAt(s, sub, i)
  }

  lemma ContainsMiddle(a: string, sub: string, b: string)
    ensures Contains(a + sub + b, sub)
  {
    var s := a + sub + b;
    assert s[|a|..|a| + |sub|] == sub;
    assert OccursAt(s, sub, |a|);
  }

  /** An occurrence stays an occurrence after a prefix is put in front. */
  lemma ContainsAfter(p: string, s: string, sub: string)
    requires Contains(s, sub)
    ensures Contains(p + s, sub)
  {
    var i :| 0 <= i <= |s| - |sub| && OccursAt(s, sub, i);
    assert (p + s)[|p| + i..|p| + i + |sub|] == s[i..i + |sub|];
    assert OccursAt(p + s, sub, |p| + i);
  }

  /** What a text starts with, after some prefix, occurs in it. */
  lemma ContainsInPrefix(s: string, pre: string, sub: string)
    requires |pre + sub| <= |s| && s[..|pre + sub|] == pre + sub
    ensures Contains(s, sub)
  {
    assert s[|pre|..|pre| + |sub|] == (pre + sub)[|pre|..];
    assert OccursAt(s, sub, |pre|);
  }

  /** An occurrence of an occurrence is an occurrence. */
  lemma ContainsTransitive(s: string, mid: string, sub: string)
    requires Contains(s, mid) && Contains(mid, sub)
    ensures Contains(s, sub)
  {
    var i :| 0 <= i <= |s| - |mid| && OccursAt(s, mid, i);
    var j :| 0 <= j <= |mid| - |sub| && OccursAt(mid, sub, j);
    forall k | 0 <= k < |sub| ensures s[i + j + k] == sub[k] {
      assert s[i + j + k] == s[i..i + |mid|][j + k] == mid[j + k];
      assert mid[j + k] == mid[j..j + |sub|][k];
    }
    assert s[i + j..i + j + |sub|] == sub;
    assert OccursAt(s, sub, i + j);
  }

  function IndexFrom(s: string, sub: string, from: nat): (r: int)
    ensures r == -1 || (from <= r && OccursAt(s, sub, r))
    ensures r == -1 ==> forall j :: from <= j ==> !OccursAt(s, sub, j)
    ensures r != -1 ==> forall j :: from <= j < r ==> !OccursAt(s, sub, j)
    decreases |s| + 1 - from
  {
    if from + |sub| > |s| then -1
    else if s[from..from + |sub|] == sub then from
    else IndexFrom(s, sub, from + 1)
  }

  /** `strings.Index`: the first occurrence of `sub`, or -1. */
  function IndexOf(s: string, sub: string): (r: int)
    ensures r == -1 || OccursAt(s, sub, r)
    ensures r == -1 <==> !Contains(s, sub)
    ensures forall j :: 0 <= j < r ==> !OccursAt(s, sub, j)
  {
    IndexFrom(s, sub, 0)
  }

  /** A text is what comes before an occurrence, the occurrence, and what follows it. */
  lemma Reassemble(s: string, sub: string, i: int)
    requires OccursAt(s, sub, i)
    ensures s == s[..i] + sub + s[i + |sub|..]
  {
    assert s == s[..i] + s[i..i + |sub|] + s[i + |sub|..];
  }

  /** `strings.Join`. */
  function Join(parts: seq<string>, sep: string): string {
    if |parts| == 0 then []
    else if |parts| == 1 then parts[0]
    else parts[0] + sep + Join(parts[1..], sep)
  }

  /** Every piece of a join occurs in it. */
  lemma {:induction false} JoinContains(parts: seq<string>, sep: string, k: nat)
    requires k < |parts|
    ensures Contains(Join(parts, sep), parts[k])
    decreases |parts|
  {
    if |parts| == 1 {
      ContainsMiddle([], parts[0], []);
      assert [] + parts[0] + [] == parts[0];
    } else {
      var rest := Join(parts[1..], sep);
      assert Join(parts, sep) == parts[0] + sep + rest;
      if k == 0 {
        ContainsMiddle([], parts[0], sep + rest);
        assert [] + parts[0] + (sep + rest) == parts[0] + sep + rest;
      } else {
        JoinContains(parts[1..], sep, k - 1);
        ContainsAfter(parts[0] + sep, rest, parts[k]);
      }
    }
  }

  /**
   * `strings.Split` for a non-empty separator: the pieces between successive
   * non-overlapping occurrences, found left to right.
   */
  function Split(s: string, sep: string): (parts: seq<string>)
    requires sep != []
    ensures |parts| >= 1
    ensures Join(parts, sep) == s
    ensures |parts| == 1 <==> !Contains(s, sep)
    decreases |s|
  {
    var i := IndexOf(s, sep);
    if i < 0 then [s]
    else
      var rest := Split(s[i + |sep|..], sep);
      var parts := [s[..i]] + rest;
      assert parts[0] == s[..i] && parts[1..] == rest;
      Reassemble(s, sep, i);
      parts
  }

  /** Joining the first `k` pieces and the rest around one separator gives the whole join. */
  lemma {:induction false} JoinAround(parts: seq<string>, sep: string, k: nat)
    requires 0 < k < |parts|
    ensures Join(parts[..k], sep) + sep + Join(parts[k..], sep) == Join(parts, sep)
  {
    if k == 1 {
      assert parts[..1] == [parts[0]];
    } else {
      JoinAround(parts[1..], sep, k - 1);
      assert parts[1..][..k - 1] == parts[1..k] == parts[..k][1..];
      assert parts[1..][k - 1..] == parts[k..];
    }
  }

  /** Splitting the text after the `u`-th separator gives back the remaining pieces. */
  lemma {:induction false} SplitSuffix(s: string, sep: string, u: nat)
    requires sep != [] && 1 <= u < |Split(s, sep)|
    ensures Split(Join(Split(s, sep)[u..], sep), sep) == Split(s, sep)[u..]
    decreases |s|
  {
    var i := IndexOf(s, sep);
    var t := s[i + |sep|..];
    assert Split(s, sep) == [s[..i]] + Split(t, sep);
    assert Split(s, sep)[u..] == Split(t, sep)[u - 1..];
    if u > 1 {
      SplitSuffix(t, sep, u - 1);
    } else {
      assert Split(t, sep)[0..] == Split(t, sep);
    }
  }

  /**
   * Round trip the other way: splitting a join on a one-character separator
   * that no piece contains gives back the pieces.
   */
  lemma {:induction false} SplitJoinChar(parts: seq<string>, c: char)
    requires |parts| >= 1
    requires forall k :: 0 <= k < |parts| ==> c !in parts[k]
    ensures Split(Join(parts, [c]), [c]) == parts
  {
    var s := Join(parts, [c]);
    var p := parts[0];
    if |parts| > 1 {
      assert s == p + [c] + Join(parts[1..], [c]);
      assert OccursAt(s, [c], |p|);
      var r := IndexOf(s, [c]);
      assert r == |p|;
      assert s[r + 1..] == Join(parts[1..], [c]);
      SplitJoinChar(parts[1..], c);
      assert s[..r] == p;
    }
  }

  /**
   * `fmt.Sprintf` with only `%s` verbs: the literal pieces of the format
   * with the arguments between them, in order.
   */
  function Format(pieces: seq<string>, args: seq<string>): string
    requires |pieces| == |args| + 1
  {
    if args == [] then pieces[0] else pieces[0] + args[0] + Format(pieces[1..], args[1..])
  }

  /** Every argument appears in the formatted text. */
  lemma {:induction false} FormatContainsArg(pieces: seq<string>, args: seq<string>, k: nat)
    requires |pieces| == |args| + 1 && k < |args|
    ensures Contains(Format(pieces, args), args[k])
  {
    var rest := Format(pieces[1..], args[1..]);
    if k == 0 {
      ContainsMiddle(pieces[0], args[0], rest);
    } else {
      FormatContainsArg(pieces[1..], args[1..], k - 1);
      ContainsAfter(pieces[0] + args[0], rest, args[k]);
    }
  }

  /** The formatted text starts with the first literal piece. */
  lemma FormatStartsWith(pieces: seq<string>, args: seq<string>)
    requires |pieces| == |args| + 1
    ensures var r := Format(pieces, args); |pieces[0]| <= |r| && r[..|pieces[0]|] == pieces[0]
  {
    if args != [] {
      var r := Format(pieces, args);
      assert r == pieces[0] + (args[0] + Format(pieces[1..], args[1..]));
    }
  }

  function Digit(d: nat): char
    requires d < 10
  {
    "0123456789"[d]
  }

  /** `%d` of a non-negative integer. */
  function NatToString(n: nat): (r: string)
    ensures r != []
  {
    if n < 10 then [Digit(n)] else NatToString(n / 10) + [Digit(n % 10)]
  }

  /** `%d` of any integer. */
  function IntToString(i: int): string {
    if i < 0 then "-" + NatToString(-i) else NatToString(i)
  }

  /** Lower-casing of one character, ASCII letters only. */
  function LowerChar(c: char): char {
    if 'A' <= c <= 'Z' then (c as int + 32) as char else c
  }

  /** `strings.ToLower`, restricted to ASCII letters. */
  function ToLower(s: string): (r: string)
    ensures |r| == |s|
    ensures forall i :: 0 <= i < |s| ==> r[i] == LowerChar(s[i])
  {
    seq(|s|, i requires 0 <= i < |s| => LowerChar(s[i]))
  }

  /**
   * Go's `<` on strings: byte-wise lexicographic order, which on valid UTF-8
   * is the code-point order used here.
   */
  predicate Less(a: string, b: string) {
    if a == [] then b != []
    else if b == [] then false
    else if a[0] != b[0] then a[0] < b[0]
    else Less(a[1..], b[1..])
  }

  lemma {:induction false} LessIrreflexive(a: string)
    ensures !Less(a, a)
  {
    if a != [] { LessIrreflexive(a[1..]); }
  }

  lemma {:induction false} LessTransitive(a: string, b: string, c: string)
    requires Less(a, b) && Less(b, c)
    ensures Less(a, c)
  {
    if a != [] && b != [] && c != [] && a[0] == b[0] && b[0] == c[0] {
      LessTransitive(a[1..], b[1..], c[1..]);
    }
  }

  lemma {:induction false} LessTotal(a: string, b: string)
    ensures a == b || Less(a, b) || Less(b, a)
  {
    if a != [] && b != [] && a[0] == b[0] {
      LessTotal(a[1..], b[1..]);
      if a[1..] == b[1..] { assert a == [a[0]] + a[1..]; assert b == [b[0]] + b[1..]; }
    }
  }

  lemma LessAsymmetric(a: string, b: string)
    requires Less(a, b)
    ensures !Less(b, a)
  {
    if Less(b, a) {
      LessTransitive(a, b, a);
      LessIrreflexive(a);
    }
  }
}
