/**
 Topic splitting (src/utils.cpp) and D-Bus path canonicalisation (src/types.cpp).
 Strings are sequences of characters; a D-Bus path or an MQTT topic is a string.
 */
module Text {

  /** Position of the first `c` at or after `start`, or |s| when there is none. */
  function FindFrom(s: string, c: char, start: nat): (r: nat)
    requires start <= |s|
    ensures start <= r <= |s|
    ensures r < |s| ==> s[r] == c
    decreases |s| - start
  {
    if start == |s| || s[start] == c then start else FindFrom(s, c, start + 1)
  }

  lemma {:induction false} FindFromIsFirst(s: string, c: char, start: nat)
    requires start <= |s|
    ensures forall i | start <= i < FindFrom(s, c, start) :: s[i] != c
    decreases |s| - start
  {
    if start < |s| && s[start] != c {
      FindFromIsFirst(s, c, start + 1);
    }
  }

  /** What splitToVector computes: at most `max` cuts, counting only the parts it keeps. */
  function Split(s: string, sep: char, max: nat, keepEmpty: bool): seq<string>
    decreases |s|
  {
    var e := FindFrom(s, sep, 0);
    if max == 0 || e == |s| then
      if s != "" || keepEmpty then [s] else []
    else if e != 0 || keepEmpty then
      [s[..e]] + Split(s[e + 1..], sep, max - 1, keepEmpty)
    else
      Split(s[e + 1..], sep, max, keepEmpty)
  }

  /** The parts with one separator between neighbours. */
  function Join(parts: seq<string>, sep: char): string {
    if parts == [] then ""
    else if |parts| == 1 then parts[0]
    else parts[0] + [sep] + Join(parts[1..], sep)
  }

  function NonEmptyParts(parts: seq<string>): seq<string> {
    if parts == [] then []
    else (if parts[0] == "" then [] else [parts[0]]) + NonEmptyParts(parts[1..])
  }

  method SplitToVector(input: string, sep: char, max: nat, keepEmpty: bool) returns (result: seq<string>)
    ensures result == Split(input, sep, max, keepEmpty)
  {
    result := [];
    var start := 0;
    var end := FindFrom(input, sep, start);
    StartSoFar(input, sep, max, keepEmpty);
    while |result| < max && end != |input|
      invariant start <= |input| && end == FindFrom(input, sep, start)
      invariant SplitSoFar(input, sep, max, keepEmpty, result, start)
      decreases |input| - start
    {
      AdvanceSoFar(input, sep, start, max, keepEmpty, result);
      if start != end || keepEmpty {
        result := result + [input[start..end]];
      }
      start := end + 1;
      end := FindFrom(input, sep, start);
    }
    EndSoFar(input, sep, start, max, keepEmpty, result);
    if start != |input| || keepEmpty {
      result := result + [input[start..]];
    }
  }

  /** What is still to be split completes the parts found so far. */
  predicate SplitSoFar(s: string, sep: char, max: nat, keepEmpty: bool, done: seq<string>, start: nat) {
    start <= |s| && |done| <= max
    && done + Split(s[start..], sep, max - |done|, keepEmpty) == Split(s, sep, max, keepEmpty)
  }

  lemma StartSoFar(s: string, sep: char, max: nat, keepEmpty: bool)
    ensures SplitSoFar(s, sep, max, keepEmpty, [], 0)
  {}

  lemma AdvanceSoFar(s: string, sep: char, start: nat, max: nat, keepEmpty: bool, done: seq<string>)
    requires SplitSoFar(s, sep, max, keepEmpty, done, start) && |done| < max && FindFrom(s, sep, start) < |s|
    ensures var e := FindFrom(s, sep, start);
      SplitSoFar(s, sep, max, keepEmpty, if start != e || keepEmpty then done + [s[start..e]] else done, e + 1)
  {
    SplitAdvance(s, sep, start, max, keepEmpty, done);
  }

  lemma EndSoFar(s: string, sep: char, start: nat, max: nat, keepEmpty: bool, done: seq<string>)
    requires SplitSoFar(s, sep, max, keepEmpty, done, start) && (|done| == max || FindFrom(s, sep, start) == |s|)
    ensures Split(s, sep, max, keepEmpty) == if start != |s| || keepEmpty then done + [s[start..]] else done
  {
    SplitStep(s, sep, start, max - |done|, keepEmpty);
  }

  lemma SplitAdvance(s: string, sep: char, start: nat, max: nat, keepEmpty: bool, done: seq<string>)
    requires start <= |s| && |done| < max && FindFrom(s, sep, start) < |s|
    ensures var e := FindFrom(s, sep, start);
      var more := if start != e || keepEmpty then done + [s[start..e]] else done;
      done + Split(s[start..], sep, max - |done|, keepEmpty)
      == more + Split(s[e + 1..], sep, max - |more|, keepEmpty)
  {
    var e := FindFrom(s, sep, start);
    SplitStep(s, sep, start, max - |done|, keepEmpty);
    if start != e || keepEmpty {
      MoveOver(done, s[start..e], Split(s[e + 1..], sep, max - |done| - 1, keepEmpty));
    }
  }

  lemma MoveOver(done: seq<string>, part: string, rest: seq<string>)
    ensures done + ([part] + rest) == done + [part] + rest
  {}

  /** One round of the loop, seen from the suffix that is still to be split. */
  lemma SplitStep(s: string, sep: char, start: nat, max: nat, keepEmpty: bool)
    requires start <= |s|
    ensures var e := FindFrom(s, sep, start);
      Split(s[start..], sep, max, keepEmpty)
      == if max == 0 || e == |s| then (if start != |s| || keepEmpty then [s[start..]] else [])
         else if start != e || keepEmpty then [s[start..e]] + Split(s[e + 1..], sep, max - 1, keepEmpty)
         else Split(s[e + 1..], sep, max, keepEmpty)
  {
    var e := FindFrom(s, sep, start);
    FindFromSuffix(s, sep, start);
    if e < |s| {
      assert s[start..][..e - start] == s[start..e];
      assert s[start..][e - start + 1..] == s[e + 1..];
    }
  }

  lemma {:induction false} FindFromSuffix(s: string, c: char, start: nat)
    requires start <= |s|
    ensures FindFrom(s, c, start) == start + FindFrom(s[start..], c, 0)
  {
    var r := FindFrom(s, c, start);
    var q := FindFrom(s[start..], c, 0);
    FindFromIsFirst(s, c, start);
    FindFromIsFirst(s[start..], c, 0);
    assert forall i | start <= i < start + q :: s[i] == s[start..][i - start];
    assert r < |s| ==> s[r] == s[start..][r - start];
  }

  /** Splitting loses nothing: joining the kept parts gives the input back. */
  lemma {:induction false} JoinOfSplit(s: string, sep: char, max: nat)
    ensures Join(Split(s, sep, max, true), sep) == s
    decreases |s|
  {
    var e := FindFrom(s, sep, 0);
    if max != 0 && e != |s| {
      JoinOfSplit(s[e + 1..], sep, max - 1);
      var rest := Split(s[e + 1..], sep, max - 1, true);
      SplitShape(s[e + 1..], sep, max - 1);
      assert ([s[..e]] + rest)[1..] == rest;
      assert s == s[..e] + [sep] + s[e + 1..];
    }
  }

  /** At most max + 1 parts; only the last can hold a separator, and only when all cuts are used up. */
  lemma {:induction false} SplitShape(s: string, sep: char, max: nat)
    ensures var parts := Split(s, sep, max, true);
      && 1 <= |parts| <= max + 1
      && (forall i | 0 <= i < |parts| - 1 :: sep !in parts[i])
      && (|parts| <= max ==> sep !in parts[|parts| - 1])
    decreases |s|
  {
    var e := FindFrom(s, sep, 0);
    FindFromIsFirst(s, sep, 0);
    if max != 0 && e != |s| {
      SplitShape(s[e + 1..], sep, max - 1);
    }
  }

  /** The first separator of a join comes right after its first part. */
  lemma FirstOfJoin(parts: seq<string>, sep: char)
    requires |parts| > 1 && sep !in parts[0]
    ensures var s, e := Join(parts, sep), |parts[0]|;
      e < |s| && FindFrom(s, sep, 0) == e && s[..e] == parts[0] && s[e + 1..] == Join(parts[1..], sep)
  {
    var s, e := Join(parts, sep), FindFrom(Join(parts, sep), sep, 0);
    FindFromIsFirst(s, sep, 0);
    assert s[|parts[0]|] == sep;
    assert forall i | 0 <= i < |parts[0]| :: s[i] == parts[0][i];
  }

  /** With cuts left, a split cuts at the first separator. */
  lemma CutAtFirst(a: string, b: string, sep: char, max: nat)
    requires sep !in a && max > 0
    ensures Split(a + [sep] + b, sep, max, true) == [a] + Split(b, sep, max - 1, true)
  {
    var s, e := a + [sep] + b, FindFrom(a + [sep] + b, sep, 0);
    FindFromIsFirst(s, sep, 0);
    assert s[|a|] == sep && forall i | 0 <= i < |a| :: s[i] == a[i];
    assert s[..e] == a && s[e + 1..] == b;
  }

  /** Conversely every list of that shape is what splitting its join yields. */
  lemma {:induction false} SplitOfJoin(parts: seq<string>, sep: char, max: nat)
    requires 1 <= |parts| <= max + 1
    requires forall i | 0 <= i < |parts| - 1 :: sep !in parts[i]
    requires |parts| == max + 1 || sep !in parts[|parts| - 1]
    ensures Split(Join(parts, sep), sep, max, true) == parts
    decreases |parts|
  {
    if |parts| > 1 {
      FirstOfJoin(parts, sep);
      SplitOfJoin(parts[1..], sep, max - 1);
      assert [parts[0]] + parts[1..] == parts;
    } else if max > 0 {
      var e := FindFrom(parts[0], sep, 0);
      assert e < |parts[0]| ==> parts[0][e] == sep;
    }
  }

  /** Without empty parts and without a cut limit, splitting yields the non-empty parts in order. */
  lemma {:induction false} SplitDropsEmpty(s: string, sep: char, max: nat)
    requires |s| <= max
    ensures Split(s, sep, max, false) == NonEmptyParts(Split(s, sep, max, true))
    decreases |s|
  {
    var e := FindFrom(s, sep, 0);
    if max != 0 && e != |s| {
      var rest := s[e + 1..];
      SplitDropsEmpty(rest, sep, max - 1);
      SplitLimitIrrelevant(rest, sep, max - 1, max, false);
      assert ([s[..e]] + Split(rest, sep, max - 1, true))[1..] == Split(rest, sep, max - 1, true);
    }
  }

  lemma {:induction false} SplitLimitIrrelevant(s: string, sep: char, m: nat, n: nat, keepEmpty: bool)
    requires |s| <= m && |s| <= n
    ensures Split(s, sep, m, keepEmpty) == Split(s, sep, n, keepEmpty)
    decreases |s|
  {
    var e := FindFrom(s, sep, 0);
    if m != 0 && n != 0 && e != |s| {
      SplitLimitIrrelevant(s[e + 1..], sep, m - 1, n - 1, keepEmpty);
      SplitLimitIrrelevant(s[e + 1..], sep, m, n, keepEmpty);
    }
  }

  predicate Contains(s: string, part: string) {
    StartsWith(s, part) || (s != "" && Contains(s[1..], part))
  }

  lemma {:induction false} ContainedHasPlace(s: string, part: string) returns (a: string, b: string)
    requires Contains(s, part)
    ensures s == a + part + b
    decreases |s|
  {
    if StartsWith(s, part) {
      a, b := "", s[|part|..];
    } else {
      a, b := ContainedHasPlace(s[1..], part);
      a := [s[0]] + a;
    }
  }

  lemma {:induction false} PlacedIsContained(a: string, part: string, b: string)
    ensures Contains(a + part + b, part)
    decreases |a|
  {
    var s := a + part + b;
    if a == "" {
      assert s[..|part|] == part;
    } else {
      PlacedIsContained(a[1..], part, b);
      assert s[1..] == a[1..] + part + b;
    }
  }

  /** Decimal text of an integer. */
  function IntText(n: int): string
    decreases n < 0, if n < 0 then -n else n
  {
    if n < 0 then "-" + IntText(-n)
    else if n < 10 then ["0123456789"[n]]
    else IntText(n / 10) + ["0123456789"[n % 10]]
  }

  predicate AllDigits(s: string) {
    forall i | 0 <= i < |s| :: '0' <= s[i] <= '9'
  }

  /** The number that these digits write. */
  function Digits(s: string): nat
    requires AllDigits(s)
  {
    if s == "" then 0 else 10 * Digits(s[..|s| - 1]) + (s[|s| - 1] as int - '0' as int)
  }

  /** The text writes the number in decimal: a minus sign if it is negative, then digits without leading zeros. */
  predicate Decimal(s: string, n: int) {
    if n < 0 then s != "" && s[0] == '-' && Unsigned(s[1..]) && Digits(s[1..]) == -n
    else Unsigned(s) && Digits(s) == n
  }

  predicate Unsigned(s: string) {
    s != "" && AllDigits(s) && (s[0] == '0' ==> |s| == 1)
  }

  lemma {:induction false} UnsignedText(n: nat)
    ensures Unsigned(IntText(n)) && Digits(IntText(n)) == n
  {
    if n >= 10 {
      UnsignedText(n / 10);
      assert IntText(n)[..|IntText(n)| - 1] == IntText(n / 10);
      assert IntText(n / 10) != "0" by {
        assert Digits("0") == 0;
      }
    } else {
      var d := IntText(n);
      assert d[..0] == "";
    }
  }

  lemma {:induction false} OnlyUnsigned(s: string)
    requires Unsigned(s)
    ensures s == IntText(Digits(s))
    decreases |s|
  {
    if |s| == 1 {
      OneDigit(s);
    } else {
      var init := s[..|s| - 1];
      assert init[0] == s[0];
      OnlyUnsigned(init);
      UnsignedPositive(init);
      OneMoreDigit(s, Digits(init), s[|s| - 1] as int - '0' as int);
    }
  }

  lemma OneDigit(s: string)
    requires |s| == 1 && AllDigits(s)
    ensures s == IntText(Digits(s))
  {
    DigitText(s[0]);
    assert s[..0] == "" && s == [s[0]];
  }

  lemma OneMoreDigit(s: string, n: nat, d: nat)
    requires s != "" && n > 0 && s[..|s| - 1] == IntText(n) && d < 10 && s[|s| - 1] == ('0' as int + d) as char
    ensures s == IntText(10 * n + d)
  {
    DigitText(s[|s| - 1]);
    LastDigit(n, d);
    assert s == s[..|s| - 1] + [s[|s| - 1]];
  }

  lemma DigitText(c: char)
    requires '0' <= c <= '9'
    ensures "0123456789"[c as int - '0' as int] == c
  {}

  lemma LastDigit(n: nat, d: nat)
    requires n > 0 && d < 10
    ensures IntText(10 * n + d) == IntText(n) + ["0123456789"[d]]
  {
    assert (10 * n + d) / 10 == n && (10 * n + d) % 10 == d;
  }

  lemma {:induction false} UnsignedPositive(s: string)
    requires Unsigned(s) && s[0] != '0'
    ensures Digits(s) > 0
    decreases |s|
  {
    if |s| > 1 {
      UnsignedPositive(s[..|s| - 1]);
    } else {
      assert s[..0] == "";
    }
  }

  /** The text of an integer is the one text that writes it in decimal. */
  lemma IntTextIsDecimal(s: string, n: int)
    ensures s == IntText(n) <==> Decimal(s, n)
  {
    UnsignedText(if n < 0 then -n else n);
    assert n < 0 ==> IntText(n)[1..] == IntText(-n);
    if Decimal(s, n) {
      OnlyUnsigned(if n < 0 then s[1..] else s);
      if n < 0 {
        assert s == "-" + s[1..];
      }
    }
  }

  // ---------- D-Bus paths ----------

  predicate StartsWith(s: string, prefix: string) {
    |prefix| <= |s| && s[..|prefix|] == prefix
  }

  predicate NoDoubleSlash(s: string) {
    forall i | 0 <= i < |s| - 1 :: !(s[i] == '/' && s[i + 1] == '/')
  }

  /** Every run of slashes reduced to one slash. */
  function Collapse(s: string): string {
    if |s| < 2 then s
    else if s[0] == '/' && s[1] == '/' then Collapse(s[1..])
    else [s[0]] + Collapse(s[1..])
  }

  /** The path with a leading slash, added only when it is missing. */
  function PrefixSlash(path: string): (r: string)
    ensures StartsWith(r, "/") && (r == path || "/" + path == r) && (path != "" && path[0] == '/' ==> r == path)
  {
    if StartsWith(path, "/") then path else "/" + path
  }

  /** The non-empty segments of a path. */
  function Segments(path: string): seq<string> {
    Split(path, '/', |path|, false)
  }

  method JoinPathsWithSlash(a: string, b: string) returns (result: string)
    ensures result == Collapse(a + "/" + b)
  {
    var whole := a + "/" + b;
    result := "";
    var prev := '\0';
    for i := 0 to |whole|
      invariant result == Collapse(whole[..i])
      invariant prev == if i == 0 then '\0' else whole[i - 1]
    {
      var c := whole[i];
      CollapseAppend(whole[..i], c);
      assert whole[..i + 1] == whole[..i] + [c];
      if !(c == prev && c == '/') {
        prev := c;
        result := result + [c];
      }
    }
    assert whole[..|whole|] == whole;
  }

  lemma {:induction false} CollapseAppend(s: string, c: char)
    ensures Collapse(s + [c])
         == if s != "" && s[|s| - 1] == '/' && c == '/' then Collapse(s) else Collapse(s) + [c]
    decreases |s|
  {
    if |s| >= 1 {
      assert (s + [c])[1..] == s[1..] + [c];
      if |s| == 1 {
        assert Collapse(s[1..] + [c]) == [c];
      } else {
        CollapseAppend(s[1..], c);
      }
    }
  }

  lemma {:induction false} CollapseFirst(s: string)
    ensures Collapse(s) == "" <==> s == ""
    ensures s != "" ==> Collapse(s)[0] == s[0]
    decreases |s|
  {
    if |s| >= 2 && s[0] == '/' && s[1] == '/' {
      CollapseFirst(s[1..]);
    }
  }

  lemma {:induction false} CollapseHasNoDoubleSlash(s: string)
    ensures NoDoubleSlash(Collapse(s))
    decreases |s|
  {
    if |s| >= 2 {
      CollapseHasNoDoubleSlash(s[1..]);
      CollapseFirst(s[1..]);
      if !(s[0] == '/' && s[1] == '/') {
        var t := Collapse(s[1..]);
        forall i | 0 <= i < |[s[0]] + t| - 1
          ensures !(([s[0]] + t)[i] == '/' && ([s[0]] + t)[i + 1] == '/')
        {
          if i > 0 { assert !(t[i - 1] == '/' && t[i] == '/'); }
        }
      }
    }
  }

  /** A collapsed path starts and ends with a slash exactly if the path does. */
  lemma {:induction false} CollapseKeepsEnds(s: string)
    requires s != ""
    ensures Collapse(s) != "" && Collapse(s)[0] == s[0] && Collapse(s)[|Collapse(s)| - 1] == s[|s| - 1]
    decreases |s|
  {
    if |s| >= 2 {
      CollapseKeepsEnds(s[1..]);
    }
  }

  lemma {:induction false} CollapseFixesExactlyCanonical(s: string)
    ensures Collapse(s) == s <==> NoDoubleSlash(s)
    decreases |s|
  {
    if NoDoubleSlash(s) && |s| >= 2 {
      assert !(s[0] == '/' && s[0 + 1] == '/');
      assert NoDoubleSlash(s[1..]) by {
        forall i | 0 <= i < |s[1..]| - 1 ensures !(s[1..][i] == '/' && s[1..][i + 1] == '/') {
          assert !(s[i + 1] == '/' && s[i + 1 + 1] == '/');
        }
      }
      CollapseFixesExactlyCanonical(s[1..]);
    }
    CollapseHasNoDoubleSlash(s);
  }

  /** Collapsing changes how a path is written, never which segments it names. */
  lemma {:induction false} CollapseKeepsSegments(s: string)
    ensures Segments(Collapse(s)) == Segments(s)
    decreases |s|
  {
    var e := FindFrom(s, '/', 0);
    CollapseSplitsAtSlash(s);
    if e != |s| {
      var rest := s[e + 1..];
      CollapseKeepsSegments(rest);
      SegmentsCut(s);
      var c := Collapse(s);
      SegmentsCut(c);
      SegmentsSkipSlash(c[e + 1..]);
    }
  }

  /** The collapsed path `c` has the same first segment as `s`, and the same rest up to a leading slash. */
  predicate CutsAlike(c: string, s: string) {
    var e := FindFrom(s, '/', 0);
    if e == |s| then c == s
    else && FindFrom(c, '/', 0) == e < |c|
         && c[..e] == s[..e]
         && (c[e + 1..] == Collapse(s[e + 1..]) || "/" + c[e + 1..] == Collapse(s[e + 1..]))
  }

  lemma {:induction false} CollapseSplitsAtSlash(s: string)
    ensures CutsAlike(Collapse(s), s)
    decreases |s|
  {
    if |s| >= 2 {
      if s[0] == '/' {
        CollapseAtSlash(s);
      } else {
        CollapseSplitsAtSlash(s[1..]);
        CutsAlikeShift(s[0], Collapse(s[1..]), s[1..]);
        assert s == [s[0]] + s[1..];
      }
    }
  }

  lemma CollapseAtSlash(s: string)
    requires |s| >= 2 && s[0] == '/'
    ensures CutsAlike(Collapse(s), s)
  {}

  lemma CutsAlikeShift(c: char, ct: string, t: string)
    requires c != '/' && CutsAlike(ct, t)
    ensures CutsAlike([c] + ct, [c] + t)
  {
    var e := FindFrom(t, '/', 0);
    FindFromShift(c, t);
    if e < |t| {
      FindFromShift(c, ct);
      assert ([c] + t)[e + 2..] == t[e + 1..];
      assert ([c] + ct)[e + 2..] == ct[e + 1..];
      assert ([c] + ct)[..e + 1] == [c] + ct[..e];
      assert ([c] + t)[..e + 1] == [c] + t[..e];
    }
  }

  lemma FindFromShift(c: char, t: string)
    requires c != '/'
    ensures FindFrom([c] + t, '/', 0) == 1 + FindFrom(t, '/', 0)
  {
    FindFromSuffix([c] + t, '/', 1);
    assert ([c] + t)[1..] == t;
  }

  lemma {:induction false} SegmentsCut(s: string)
    requires FindFrom(s, '/', 0) < |s|
    ensures var e := FindFrom(s, '/', 0);
      Segments(s) == (if e == 0 then [] else [s[..e]]) + Segments(s[e + 1..])
  {
    var e := FindFrom(s, '/', 0);
    SplitLimitIrrelevant(s[e + 1..], '/', |s| - 1, |s[e + 1..]|, false);
    SplitLimitIrrelevant(s[e + 1..], '/', |s|, |s[e + 1..]|, false);
  }

  lemma {:induction false} SegmentsSkipSlash(s: string)
    ensures Segments("/" + s) == Segments(s)
  {
    assert FindFrom("/" + s, '/', 0) == 0;
    assert ("/" + s)[1..] == s;
    SegmentsCut("/" + s);
  }

  predicate SlashAtSeam(prefix: string, rest: string) {
    (prefix != "" && prefix[|prefix| - 1] == '/') || (rest != "" && rest[0] == '/')
  }

  /**
   A canonical key is found again however a reply cuts it: at a slash, before one or after one.
   So a value read below a prefix lands under the key the GetItems reply uses.
   */
  lemma {:induction false} RejoinedPathIsTheKey(key: string, prefix: string, rest: string)
    requires NoDoubleSlash(key) && StartsWith(key, "/")
    requires key == prefix + "/" + rest || (key == prefix + rest && SlashAtSeam(prefix, rest))
    ensures PrefixSlash(Collapse(prefix + "/" + rest)) == key
  {
    CollapseFixesExactlyCanonical(key);
    if key != prefix + "/" + rest {
      CollapseSeam(prefix, rest);
    }
  }

  lemma {:induction false} CollapseSeam(prefix: string, rest: string)
    requires SlashAtSeam(prefix, rest)
    ensures Collapse(prefix + "/" + rest) == Collapse(prefix + rest)
    decreases |prefix|
  {
    if prefix == "" {
      assert prefix + "/" + rest == "/" + rest;
      assert ("/" + rest)[1..] == rest;
      assert prefix + rest == rest;
    } else {
      var a, b := prefix + "/" + rest, prefix + rest;
      assert a[1..] == prefix[1..] + "/" + rest;
      assert b[1..] == prefix[1..] + rest;
      if |prefix| == 1 && !(rest != "" && rest[0] == '/') {
        assert prefix == "/";
        assert a[1..] == "/" + rest == b;
      } else {
        CollapseSeam(prefix[1..], rest);
      }
    }
  }
}
