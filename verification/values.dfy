/**
  Ruby values as they appear in an action's option bag, and the few core
  String and Array methods the actions apply to them (`to_s`, truthiness,
  `strip`, `delete!("\n")`, `sub('-', '')`, `join(' ')`).
 */
module RubyValues {

  datatype Option<+T> = None | Some(value: T)

  /** An option value: nil, true/false, a String, or an Array of Strings. */
  datatype Value = Nil | Bool(b: bool) | Str(s: string) | List(items: seq<string>)

  /** An option bag: option name (the Ruby symbol without its colon) to value. */
  type Bag = map<string, Value>

  /** `params[key]`: a key that is not present reads as nil. */
  function Get(p: Bag, key: string): (v: Value)
    ensures key in p ==> v == p[key]
    ensures key !in p ==> v == Nil
  {
    if key in p then p[key] else Nil
  }

  /** Setting one option changes what that option reads and nothing else. */
  lemma GetAssign(p: Bag, key: string, v: Value, other: string)
    ensures Get(p[key := v], key) == v
    ensures other != key ==> Get(p[key := v], other) == Get(p, other)
  {
  }

  /** Ruby truthiness: every value except nil and false. */
  predicate Truthy(v: Value) {
    !v.Nil? && v != Bool(false)
  }

  /** A String (or nil) as a value. */
  function FromOption(o: Option<string>): Value {
    match o
    case Some(s) => Str(s)
    case None => Nil
  }

  /** String interpolation of a value, `"#{v}"`, which is `v.to_s`. */
  function ToS(v: Value): string {
    match v
    case Nil => ""
    case Bool(b) => if b then "true" else "false"
    case Str(s) => s
    case List(xs) => "[" + InspectItems(xs) + "]"
  }

  /** The element list of `Array#inspect`, each element in double quotes. */
  function InspectItems(xs: seq<string>): string
    decreases |xs|
  {
    if xs == [] then ""
    else if |xs| == 1 then "\"" + xs[0] + "\""
    else "\"" + xs[0] + "\", " + InspectItems(xs[1..])
  }

  /** `v.to_s.empty?` holds exactly for nil and the empty String. */
  lemma ToSEmptyIff(v: Value)
    ensures ToS(v) == "" <==> v == Nil || v == Str("")
  {
    match v
    case List(xs) => assert ToS(v)[0] == '[';
    case _ =>
  }

  /** Whether `v` answers `empty?` (Strings and Arrays do; nil and booleans raise NoMethodError). */
  predicate RespondsToEmpty(v: Value) {
    v.Str? || v.List?
  }

  /** `v.empty?` for a value that answers it. */
  predicate IsEmpty(v: Value)
    requires RespondsToEmpty(v)
  {
    if v.Str? then v.s == "" else v.items == []
  }

  // ---------------------------------------------------------------------
  // String#strip
  // ---------------------------------------------------------------------

  /** The characters `strip` removes: space, \t, \n, \v, \f, \r and NUL. */
  predicate IsSpace(c: char) {
    c == ' ' || c == '\t' || c == '\n' || c == '\U{B}' || c == '\U{C}' || c == '\r' || c == '\0'
  }

  predicate AllSpace(s: string) {
    forall i :: 0 <= i < |s| ==> IsSpace(s[i])
  }

  /** `lstrip`: drops the leading run of whitespace. */
  function TrimStart(s: string): (r: string)
    ensures |r| <= |s| && r == s[|s| - |r|..]
    ensures AllSpace(s[..|s| - |r|])
    ensures r == [] || !IsSpace(r[0])
    decreases |s|
  {
    if s != [] && IsSpace(s[0]) then TrimStart(s[1..]) else s
  }

  /** `rstrip`: drops the trailing run of whitespace. */
  function TrimEnd(s: string): (r: string)
    ensures |r| <= |s| && r == s[..|r|]
    ensures AllSpace(s[|r|..])
    ensures r == [] || !IsSpace(r[|r| - 1])
    decreases |s|
  {
    if s != [] && IsSpace(s[|s| - 1]) then TrimEnd(s[..|s| - 1]) else s
  }

  /** `r` sits in `s` at offset `i`, with only whitespace before and after it. */
  predicate SurroundedBySpace(s: string, i: nat, r: string) {
    i + |r| <= |s| && s[i..i + |r|] == r && AllSpace(s[..i]) && AllSpace(s[i + |r|..])
  }

  /** `strip`: the result is the part of `s` left between a leading and a trailing
      run of whitespace, and neither of its ends is whitespace. */
  function Strip(s: string): (r: string)
    ensures r == [] || (!IsSpace(r[0]) && !IsSpace(r[|r| - 1]))
    ensures exists i: nat :: SurroundedBySpace(s, i, r)
  {
    var t := TrimStart(s);
    var r := TrimEnd(t);
    TrimmedBothEnds(s, t, r);
    var i: nat := |s| - |t|;
    assert SurroundedBySpace(s, i, r);
    r
  }

  /** A suffix after leading whitespace, cut before trailing whitespace, sits
      between whitespace and keeps the suffix's first character. */
  lemma TrimmedBothEnds(s: string, t: string, r: string)
    requires |t| <= |s| && t == s[|s| - |t|..] && AllSpace(s[..|s| - |t|])
    requires |r| <= |t| && r == t[..|r|] && AllSpace(t[|r|..])
    ensures SurroundedBySpace(s, |s| - |t|, r)
    ensures r != [] ==> r[0] == t[0]
  {
    var i := |s| - |t|;
    assert s[i..i + |r|] == r;
    assert s[i + |r|..] == t[|r|..];
  }

  /** A string that is all whitespace loses everything to `lstrip`. */
  lemma {:induction false} TrimStartAllSpace(s: string)
    requires AllSpace(s)
    ensures TrimStart(s) == []
    decreases |s|
  {
    if s != [] {
      TrimStartAllSpace(s[1..]);
    }
  }

  /** A line strips to nothing exactly when it is all whitespace. */
  lemma StripEmptyIff(s: string)
    ensures Strip(s) == [] <==> AllSpace(s)
  {
    if AllSpace(s) {
      TrimStartAllSpace(s);
    }
    if Strip(s) == [] {
      var i: nat :| SurroundedBySpace(s, i, []);
      assert s == s[..i] + s[i..];
    }
  }

  // ---------------------------------------------------------------------
  // String#delete!("\n")
  // ---------------------------------------------------------------------

  /** `s` with every newline removed (`String#delete("\n")`). */
  function RemoveNewlines(s: string): (r: string)
    ensures '\n' !in r
    ensures '\n' !in s ==> r == s
    ensures |r| <= |s|
    ensures multiset(r) == multiset(s)['\n' := 0]
    decreases |s|
  {
    if s == [] then []
    else
      assert s == [s[0]] + s[1..];
      if s[0] == '\n' then RemoveNewlines(s[1..])
      else [s[0]] + RemoveNewlines(s[1..])
  }

  /** Removing newlines distributes over concatenation. */
  lemma {:induction false} RemoveNewlinesAppend(a: string, b: string)
    ensures RemoveNewlines(a + b) == RemoveNewlines(a) + RemoveNewlines(b)
    decreases |a|
  {
    if a != [] {
      assert (a + b)[0] == a[0];
      assert (a + b)[1..] == a[1..] + b;
      RemoveNewlinesAppend(a[1..], b);
      if a[0] == '\n' {
        assert RemoveNewlines(a + b) == RemoveNewlines(a[1..] + b);
        assert RemoveNewlines(a) == RemoveNewlines(a[1..]);
      } else {
        assert RemoveNewlines(a + b) == [a[0]] + RemoveNewlines(a[1..] + b);
        assert [a[0]] + (RemoveNewlines(a[1..]) + RemoveNewlines(b)) == ([a[0]] + RemoveNewlines(a[1..])) + RemoveNewlines(b);
      }
    } else {
      assert a + b == b;
    }
  }

  /** `String#delete!("\n")`: the string with its newlines removed, or nil when
      it contained none (the bang method reports "no change" as nil). */
  function DeleteNewlines(s: string): (r: Value)
    ensures r == Nil <==> '\n' !in s
    ensures r != Nil ==> r.Str? && '\n' !in r.s && |r.s| < |s|
    ensures r != Nil ==> r.s == RemoveNewlines(s) && multiset(r.s) == multiset(s)['\n' := 0]
  {
    if '\n' in s then
      var k :| 0 <= k < |s| && s[k] == '\n';
      assert s == s[..k] + [s[k]] + s[k + 1..];
      RemoveNewlinesAppend(s[..k] + [s[k]], s[k + 1..]);
      RemoveNewlinesAppend(s[..k], [s[k]]);
      Str(RemoveNewlines(s))
    else Nil
  }

  /** Shell output of a one-line command (`text` then a newline) loses exactly that newline. */
  lemma DeleteTrailingNewline(t: string)
    requires '\n' !in t
    ensures DeleteNewlines(t + "\n") == Str(t)
  {
    RemoveNewlinesAppend(t, "\n");
    assert '\n' in t + "\n" by { assert (t + "\n")[|t|] == '\n'; }
  }

  // ---------------------------------------------------------------------
  // Searching, String#start_with?, String#end_with?, String#sub('-', '')
  // ---------------------------------------------------------------------

  /** Index of the first `c` in `s`, or `|s|` when there is none. */
  function IndexOf(s: string, c: char): (i: nat)
    ensures i <= |s| && c !in s[..i]
    ensures i < |s| ==> s[i] == c
    ensures i == |s| <==> c !in s
    decreases |s|
  {
    if s == [] then 0
    else if s[0] == c then 0
    else
      var j := IndexOf(s[1..], c);
      assert s[..j + 1] == [s[0]] + s[1..][..j];
      j + 1
  }

  /** The first `c` of `a + [c] + b` is the one after `a` when `a` holds none. */
  lemma IndexOfFirst(a: string, c: char, b: string)
    requires c !in a
    ensures IndexOf(a + [c] + b, c) == |a|
  {
    var s := a + [c] + b;
    assert s[..|a|] == a;
    assert s[|a|] == c;
  }

  /** Concatenation regrouped; stated once so that proofs can cite it instead of rediscovering it. */
  lemma AppendAssoc<T>(a: seq<T>, b: seq<T>, c: seq<T>)
    ensures a + (b + c) == a + b + c
  {
  }

  /** The two halves of a concatenation are found again by slicing. */
  lemma PrefixSplit<T>(a: seq<T>, b: seq<T>)
    ensures (a + b)[..|a|] == a && (a + b)[|a|..] == b
  {
  }

  /** Indexing a concatenation: the first part, then the second shifted by its length. */
  lemma ConcatIndex<T>(a: seq<T>, b: seq<T>)
    ensures (a + b)[..|a|] == a
    ensures a != [] ==> (a + b)[0] == a[0]
    ensures forall i :: |a| <= i < |a + b| ==> (a + b)[i] == b[i - |a|]
  {
  }

  predicate StartsWith(s: string, prefix: string) {
    |prefix| <= |s| && s[..|prefix|] == prefix
  }

  predicate EndsWith(s: string, suffix: string) {
    |suffix| <= |s| && s[|s| - |suffix|..] == suffix
  }

  /** `s.sub('-', '')`: removes the first dash, if any. */
  function RemoveFirstDash(s: string): (r: string)
    ensures '-' !in s ==> r == s
    ensures '-' in s ==> exists i :: 0 <= i < |s| && s[i] == '-' && '-' !in s[..i] && r == s[..i] + s[i + 1..]
  {
    var i := IndexOf(s, '-');
    if i < |s| then s[..i] + s[i + 1..] else s
  }

  // ---------------------------------------------------------------------
  // Array#join(' ')
  // ---------------------------------------------------------------------

  /** `xs.join(' ')`. */
  function Join(xs: seq<string>): (r: string)
    decreases |xs|
  {
    if xs == [] then ""
    else if |xs| == 1 then xs[0]
    else xs[0] + " " + Join(xs[1..])
  }

  /** Joining two non-empty token lists puts exactly one space between them. */
  lemma {:induction false} JoinAppend(a: seq<string>, b: seq<string>)
    requires a != [] && b != []
    ensures Join(a + b) == Join(a) + " " + Join(b)
    decreases |a|
  {
    if |a| == 1 {
      assert (a + b)[1..] == b;
    } else {
      assert (a + b)[1..] == a[1..] + b;
      JoinAppend(a[1..], b);
    }
  }

  /** The joined line is as long as its tokens plus one separator between each pair. */
  lemma {:induction false} JoinLength(xs: seq<string>)
    requires xs != []
    ensures |Join(xs)| == TotalLength(xs) + |xs| - 1
    decreases |xs|
  {
    if |xs| > 1 {
      JoinLength(xs[1..]);
    }
  }

  function TotalLength(xs: seq<string>): nat
    decreases |xs|
  {
    if xs == [] then 0 else |xs[0]| + TotalLength(xs[1..])
  }
}
