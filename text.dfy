/**
 * The string built-ins the core relies on, shared by the browser code
 * (`includes`, `split`, `slice(-n)`, `toLowerCase`, `trim`) and the server
 * (`endswith`, `split`, `rsplit`, `lower`). Strings are sequences of
 * characters; case folding covers the ASCII letters only.
 */
module Text {
  import opened Wrappers

  /** `sub` occurs in `s` starting at index `i`. */
  predicate OccursAt(s: string, sub: string, i: nat) {
    i + |sub| <= |s| && s[i..i + |sub|] == sub
  }

  /** First occurrence of `sub` in `s` at or after `from`. */
  function IndexOfFrom(s: string, sub: string, from: nat): (r: Option<nat>)
    requires from <= |s|
    decreases |s| - from
    ensures r.Some? ==> from <= r.value <= |s| && OccursAt(s, sub, r.value)
    ensures r.Some? ==> forall j :: from <= j < r.value ==> !OccursAt(s, sub, j)
    ensures r.None? ==> forall j :: from <= j <= |s| ==> !OccursAt(s, sub, j)
  {
    if OccursAt(s, sub, from) then Some(from)
    else if from == |s| then None
    else IndexOfFrom(s, sub, from + 1)
  }

  /** `s.indexOf(sub)`. */
  function IndexOf(s: string, sub: string): Option<nat> {
    IndexOfFrom(s, sub, 0)
  }

  /** `s.includes(sub)` in JavaScript, `sub in s` in Python. */
  predicate Contains(s: string, sub: string) {
    IndexOf(s, sub).Some?
  }

  /** A string never contains a text whose first character it lacks. */
  lemma MissingFirstChar(s: string, sub: string)
    requires |sub| > 0 && sub[0] !in s
    ensures !Contains(s, sub)
  {
    forall j | 0 <= j <= |s|
      ensures !OccursAt(s, sub, j)
    {
      if j + |sub| <= |s| {
        assert s[j..j + |sub|][0] == s[j];
      }
    }
  }

  /** `s.split(sep)` for a non-empty separator, in JavaScript and in Python alike. */
  function Split(s: string, sep: string): (parts: seq<string>)
    requires |sep| > 0
    decreases |s|
    ensures |parts| >= 1
    ensures forall k :: 0 <= k < |parts| ==> |parts[k]| <= |s|
  {
    match IndexOf(s, sep)
    case None => [s]
    case Some(i) => [s[..i]] + Split(s[i + |sep|..], sep)
  }

  /** `parts.join(sep)`: the inverse of `Split`. */
  function Join(parts: seq<string>, sep: string): string
    requires |parts| >= 1
  {
    if |parts| == 1 then parts[0] else parts[0] + sep + Join(parts[1..], sep)
  }

  /** Splitting loses nothing: joining the pieces back gives the original string. */
  lemma {:induction false} JoinSplit(s: string, sep: string)
    requires |sep| > 0
    ensures Join(Split(s, sep), sep) == s
    decreases |s|
  {
    match IndexOf(s, sep)
    case None =>
    case Some(i) =>
      var rest := s[i + |sep|..];
      JoinCons(s[..i], Split(rest, sep), sep);
      JoinSplit(rest, sep);
      CutAround(s, i, sep);
  }

  /** Joining a head onto a non-empty list puts one separator between them. */
  lemma JoinCons(head: string, tail: seq<string>, sep: string)
    requires |tail| >= 1
    ensures Join([head] + tail, sep) == head + sep + Join(tail, sep)
  {
    assert ([head] + tail)[1..] == tail;
  }

  /** Cutting `s` around an occurrence of `sep` and gluing the pieces gives `s` back. */
  lemma CutAround(s: string, i: nat, sep: string)
    requires OccursAt(s, sep, i)
    ensures s[..i] + sep + s[i + |sep|..] == s
  {
    assert s[i..] == sep + s[i + |sep|..];
    assert s == s[..i] + s[i..];
  }

  /** The text before the first occurrence of `sep` does not contain `sep`. */
  lemma BeforeFirstFree(s: string, sep: string, i: nat)
    requires |sep| > 0 && IndexOf(s, sep) == Some(i)
    ensures !Contains(s[..i], sep)
  {
    var head := s[..i];
    forall j | 0 <= j <= |head| ensures !OccursAt(head, sep, j) {
      if j + |sep| <= |head| {
        assert head[j..j + |sep|] == s[j..j + |sep|];
        assert !OccursAt(s, sep, j);
      }
    }
  }

  /** No piece of a split contains the separator. */
  lemma {:induction false} SplitPiecesFree(s: string, sep: string, k: nat)
    requires |sep| > 0 && k < |Split(s, sep)|
    ensures !Contains(Split(s, sep)[k], sep)
    decreases |s|
  {
    match IndexOf(s, sep)
    case None =>
    case Some(i) =>
      if k == 0 {
        assert Split(s, sep)[0] == s[..i];
        BeforeFirstFree(s, sep, i);
      } else {
        SplitStep(s, sep, i, k);
        SplitPiecesFree(s[i + |sep|..], sep, k - 1);
      }
  }

  /** Past the first separator, the pieces of a split are those of the rest of the text. */
  lemma SplitStep(s: string, sep: string, i: nat, k: nat)
    requires |sep| > 0 && IndexOf(s, sep) == Some(i) && 0 < k < |Split(s, sep)|
    ensures k - 1 < |Split(s[i + |sep|..], sep)|
    ensures Split(s, sep)[k] == Split(s[i + |sep|..], sep)[k - 1]
  {
    assert Split(s, sep)[1..] == Split(s[i + |sep|..], sep);
  }

  /** The first piece of a split is the prefix of `s` before the first separator. */
  lemma SplitHead(s: string, sep: string)
    requires |sep| > 0
    ensures var h := Split(s, sep)[0];
      && |h| <= |s| && s[..|h|] == h
      && (Contains(s, sep) <==> OccursAt(s, sep, |h|))
  {
    match IndexOf(s, sep)
    case None =>
    case Some(i) =>
  }

  /**
   * When the separator's first character occurs in neither side, the
   * separator occurs exactly once and the split gives the two sides back.
   */
  lemma SplitAround(a: string, sep: string, b: string)
    requires |sep| > 0 && sep[0] !in a && sep[0] !in b
    ensures Split(a + sep + b, sep) == [a, b]
  {
    var s := a + sep + b;
    forall j | 0 <= j < |a| ensures !OccursAt(s, sep, j) {
      assert s[j] == a[j];
    }
    assert s[|a|..|a| + |sep|] == sep;
    assert OccursAt(s, sep, |a|);
    var r := IndexOf(s, sep);
    assert r == Some(|a|);
    assert s[|a| + |sep|..] == b;
    assert s[..|a|] == a;
    forall j | 0 <= j <= |b| ensures !OccursAt(b, sep, j) {
      if j < |b| { assert b[j] != sep[0]; }
    }
    assert IndexOf(b, sep).None?;
    assert Split(b, sep) == [b];
    assert Split(s, sep) == [s[..|a|]] + Split(s[|a| + |sep|..], sep);
  }

  /** `s.endsWith(suffix)` / `s.endswith(suffix)`. */
  predicate EndsWith(s: string, suffix: string)
    ensures EndsWith(s, suffix) <==>
      |suffix| <= |s| && forall i :: 0 <= i < |suffix| ==> s[|s| - |suffix| + i] == suffix[i]
  {
    |suffix| <= |s| && s[|s| - |suffix|..] == suffix
  }

  /** `s.slice(-n)` for n > 0: the last `n` characters, or all of `s` when it is shorter. */
  function SliceFromEnd(s: string, n: nat): (r: string)
    ensures |r| == if |s| < n then |s| else n
    ensures EndsWith(s, r)
  {
    if |s| <= n then s else s[|s| - n..]
  }

  /** Index of the last occurrence of `c` in `s`. */
  function LastIndexOf(s: string, c: char): (r: Option<nat>)
    ensures r.Some? ==> r.value < |s| && s[r.value] == c
    ensures r.Some? ==> forall j :: r.value < j < |s| ==> s[j] != c
    ensures r.None? ==> c !in s
  {
    if |s| == 0 then None
    else if s[|s| - 1] == c then Some(|s| - 1)
    else LastIndexOf(s[..|s| - 1], c)
  }

  /** In `a + [c] + b` with no `c` in `b`, the last `c` is the one between them. */
  lemma {:induction false} LastIndexOfJoined(a: string, c: char, b: string)
    requires c !in b
    ensures LastIndexOf(a + [c] + b, c) == Some(|a|)
    decreases |b|
  {
    var s := a + [c] + b;
    if b == [] {
      assert s == a + [c] && s[|s| - 1] == c;
    } else {
      var front := b[..|b| - 1];
      assert s[|s| - 1] == b[|b| - 1] != c;
      assert s[..|s| - 1] == a + [c] + front;
      LastIndexOfJoined(a, c, front);
    }
  }

  function LowerChar(c: char): char {
    if 'A' <= c <= 'Z' then (c as int - 'A' as int + 'a' as int) as char else c
  }

  /** `s.toLowerCase()` / `s.lower()`, over the ASCII letters. */
  function Lower(s: string): (r: string)
    ensures |r| == |s|
    ensures forall i :: 0 <= i < |s| ==> r[i] == LowerChar(s[i])
  {
    seq(|s|, i requires 0 <= i < |s| => LowerChar(s[i]))
  }

  /**
   * The characters JavaScript's `trim()` and `Number()` strip: the
   * ECMAScript WhiteSpace characters (tab, vertical tab, form feed, the
   * byte order mark and every space separator) and LineTerminators.
   */
  predicate IsSpace(c: char) {
    || c == '\t' || c == '\n' || c == '\U{000B}' || c == '\U{000C}' || c == '\r'
    || c == ' ' || c == '\U{00A0}' || c == '\U{1680}'
    || ('\U{2000}' <= c <= '\U{200A}')
    || c == '\U{2028}' || c == '\U{2029}' || c == '\U{202F}' || c == '\U{205F}'
    || c == '\U{3000}' || c == '\U{FEFF}'
  }

  function TrimStart(s: string): (r: string)
    ensures |r| <= |s| && r == s[|s| - |r|..]
    ensures |r| > 0 ==> !IsSpace(r[0])
    ensures forall i :: 0 <= i < |s| - |r| ==> IsSpace(s[i])
  {
    if |s| > 0 && IsSpace(s[0]) then TrimStart(s[1..]) else s
  }

  function TrimEnd(s: string): (r: string)
    ensures |r| <= |s| && r == s[..|r|]
    ensures |r| > 0 ==> !IsSpace(r[|r| - 1])
    ensures forall i :: |r| <= i < |s| ==> IsSpace(s[i])
  {
    if |s| > 0 && IsSpace(s[|s| - 1]) then TrimEnd(s[..|s| - 1]) else s
  }

  /**
   * `s.trim()`: the part of `s` left once the white space at both ends is
   * removed. It starts and ends with a character that is not white space,
   * and everything removed is white space.
   */
  function Trim(s: string): (r: string)
    ensures |r| > 0 ==> !IsSpace(r[0]) && !IsSpace(r[|r| - 1])
    ensures var k := |s| - |TrimStart(s)|;
      && k + |r| <= |s| && r == s[k..k + |r|]
      && (forall i :: 0 <= i < k ==> IsSpace(s[i]))
      && (forall i :: k + |r| <= i < |s| ==> IsSpace(s[i]))
  {
    TrimEnd(TrimStart(s))
  }

  /** A string that neither starts nor ends with white space is its own trim. */
  lemma TrimNoSpace(s: string)
    requires |s| > 0 && !IsSpace(s[0]) && !IsSpace(s[|s| - 1])
    ensures Trim(s) == s
  {
  }

  /** Looking for a one-character string is looking for the character. */
  lemma ContainsChar(s: string, c: char)
    ensures Contains(s, [c]) <==> c in s
  {
    var r := IndexOf(s, [c]);
    if c in s {
      var k :| 0 <= k < |s| && s[k] == c;
      assert s[k..k + 1] == [c];
      assert OccursAt(s, [c], k);
    }
    if r.Some? {
      assert s[r.value..r.value + 1] == [c];
      assert s[r.value] == c;
    }
  }

  /** `name.split('.')[0]`: the part of a name before its first dot. */
  function BeforeFirstDot(name: string): string {
    Split(name, ".")[0]
  }

  /** The result is the prefix of the name before its first dot, or the whole name when it has no dot. */
  lemma BeforeFirstDotIsPrefix(name: string)
    ensures var f := BeforeFirstDot(name);
      && |f| <= |name| && name[..|f|] == f && '.' !in f
      && ('.' in name ==> |f| < |name| && name[|f|] == '.')
      && ('.' !in name ==> f == name)
  {
    var f := BeforeFirstDot(name);
    SplitHead(name, ".");
    SplitPiecesFree(name, ".", 0);
    ContainsChar(name, '.');
    ContainsChar(f, '.');
    if '.' in name {
      assert OccursAt(name, ".", |f|);
      assert name[|f|..|f| + 1] == ".";
    }
  }
}
