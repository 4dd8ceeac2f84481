/**
  The manifest rewrite of UpdateVersionAction:
  `text.gsub(/version="[0-9.]*"/, "version=\"#{version}\"")`.
  The scan goes left to right; where the pattern matches it emits the
  replacement and resumes after the match, elsewhere it copies one character.
 */
module VersionRewrite {
  import opened RubyValues

  /** The literal start of the pattern, `version="` (nine characters). */
  const Opening: string := "version=\""

  /** The character class `[0-9.]`. */
  predicate IsVersionChar(c: char) {
    ('0' <= c <= '9') || c == '.'
  }

  predicate AllVersionChars(s: string) {
    forall i :: 0 <= i < |s| ==> IsVersionChar(s[i])
  }

  /** The pattern occurs at the start of `s` with its closing quote at index `e`. */
  predicate OccurrenceAt(s: string, e: int) {
    9 <= e < |s| && s[..9] == Opening && AllVersionChars(s[9..e]) && s[e] == '"'
  }

  /** Length of the greedy `[0-9.]*` run at the start of `s`. */
  function RunLength(s: string): (n: nat)
    ensures n <= |s|
    ensures AllVersionChars(s[..n])
    ensures n < |s| ==> !IsVersionChar(s[n])
    decreases |s|
  {
    if s != [] && IsVersionChar(s[0]) then
      var n := 1 + RunLength(s[1..]);
      assert s[..n] == [s[0]] + s[1..][..n - 1];
      n
    else 0
  }

  /** A run of version characters followed by text that does not start with
      one (or by nothing) has exactly that length. */
  lemma {:induction false} RunLengthPrefix(a: string, t: string)
    requires AllVersionChars(a) && (t == [] || !IsVersionChar(t[0]))
    ensures RunLength(a + t) == |a|
    decreases |a|
  {
    if a == [] {
      assert a + t == t;
    } else {
      assert (a + t)[0] == a[0];
      assert (a + t)[1..] == a[1..] + t;
      RunLengthPrefix(a[1..], t);
    }
  }

  /** Version characters are digits and dots, so a run of them holds no `v`. */
  lemma VersionCharsHaveNoV(a: string)
    requires AllVersionChars(a)
    ensures 'v' !in a
  {
  }

  /** Length of the match of `[0-9.]*"` at the start of `x` (the part of the
      pattern after `version="`), counting the nine characters before it. */
  function MatchTail(x: string): (r: Option<nat>)
    ensures r.Some? ==> 10 <= r.value <= |x| + 9 && AllVersionChars(x[..r.value - 10]) && x[r.value - 10] == '"'
  {
    var n := RunLength(x);
    if n < |x| && x[n] == '"' then Some(10 + n) else None
  }

  /** Length of the match of the pattern anchored at the start of `s`, if it matches there. */
  function MatchLength(s: string): (r: Option<nat>)
    ensures r.Some? ==> OccurrenceAt(s, r.value - 1)
  {
    if StartsWith(s, Opening) then
      var r := MatchTail(s[9..]);
      assert r.Some? ==> s[9..][..r.value - 10] == s[9..r.value - 1];
      r
    else None
  }

  /** The anchored match finds every occurrence of the pattern at the start of `s`. */
  lemma MatchLengthComplete(s: string, e: int)
    requires OccurrenceAt(s, e)
    ensures MatchLength(s) == Some(e + 1)
  {
  }

  /** `gsub` of every occurrence of the pattern by `version="<v>"`. */
  function Rewrite(s: string, v: string): string
    decreases |s|
  {
    if s == [] then []
    else
      match MatchLength(s)
      case Some(n) => Opening + v + "\"" + Rewrite(s[n..], v)
      case None => [s[0]] + Rewrite(s[1..], v)
  }

  /** At a `version="` the pattern matches exactly when the version run after
      it is closed by a quote. */
  lemma MatchAfterOpening(x: string)
    ensures MatchLength(Opening + x) == MatchTail(x)
  {
    PrefixSplit(Opening, x);
  }

  /** Text too short to hold an occurrence is left as it is. */
  lemma {:induction false} RewriteShort(s: string, v: string)
    requires |s| < 10
    ensures Rewrite(s, v) == s
    decreases |s|
  {
    if s != [] {
      RewriteShort(s[1..], v);
    }
  }

  /** The first nine characters of `s` (all of it when shorter). */
  function Head(s: string): string {
    if |s| < 9 then s else s[..9]
  }

  /** The first nine characters survive the rewrite (an occurrence keeps its `version="`). */
  lemma {:induction false} RewriteKeepsHead(s: string, v: string)
    ensures |Head(s)| <= |Rewrite(s, v)| && Rewrite(s, v)[..|Head(s)|] == Head(s)
    decreases |s|
  {
    if s != [] {
      match MatchLength(s)
      case Some(n) =>
      case None =>
        var t := s[1..];
        RewriteKeepsHead(t, v);
        var k := |Head(s)|;
        assert Rewrite(t, v)[..k - 1] == Head(t)[..k - 1] == s[1..k];
        assert Rewrite(s, v)[..k] == [s[0]] + Rewrite(t, v)[..k - 1];
        assert Head(s) == [s[0]] + s[1..k];
    }
  }

  /** Text that cannot start an occurrence (no `v` in it) is copied through. */
  lemma {:induction false} RewriteSkipsPlain(a: string, b: string, v: string)
    requires 'v' !in a
    ensures Rewrite(a + b, v) == a + Rewrite(b, v)
    decreases |a|
  {
    if a == [] {
      assert a + b == b;
    } else {
      assert (a + b)[0] == a[0];
      assert MatchLength(a + b) == None;
      assert (a + b)[1..] == a[1..] + b;
      RewriteSkipsPlain(a[1..], b, v);
    }
  }

  /** Every occurrence is replaced, whatever its old value, and the scan goes on after it. */
  lemma RewriteOccurrence(d: string, b: string, v: string)
    requires AllVersionChars(d)
    ensures Rewrite(Opening + d + "\"" + b, v) == Opening + v + "\"" + Rewrite(b, v)
  {
    var q := "\"" + b;
    RunLengthPrefix(d, q);
    PrefixSplit(d, q);
    MatchAfterOpening(d + q);
    AppendAssoc(Opening, d, q);
    AppendAssoc(Opening + d, "\"", b);
    PrefixSplit(Opening + d + "\"", b);
  }

  /** A `version="…"` whose value holds a character outside `[0-9.]` before its
      closing quote (such as `version="1.0-beta"`) is not rewritten. */
  lemma {:induction false} RewriteRejected(d: string, b: string, v: string)
    requires 'v' !in d
    requires RunLength(d) < |d| && d[RunLength(d)] != '"'
    ensures Rewrite(Opening + d + b, v) == Opening + d + Rewrite(b, v)
  {
    var s := Opening + d + b;
    RejectedNoMatch(d, b);
    var rest := Opening[1..] + d;
    SplitFirst(Opening, d, b);
    assert 'v' !in Opening[1..];
    RewriteSkipsPlain(rest, b, v);
    SplitFirst(Opening, d, Rewrite(b, v));
  }

  /** Where the version run is not closed by a quote, the pattern does not match. */
  lemma RejectedNoMatch(d: string, b: string)
    requires RunLength(d) < |d| && d[RunLength(d)] != '"'
    ensures MatchLength(Opening + d + b) == None
  {
    RunLengthAppend(d, b);
    AppendAssoc(Opening, d, b);
    MatchAfterOpening(d + b);
  }

  /** A run that stops inside `d` stops at the same place in `d + b`. */
  lemma RunLengthAppend(d: string, b: string)
    requires RunLength(d) < |d|
    ensures RunLength(d + b) == RunLength(d) && (d + b)[RunLength(d)] == d[RunLength(d)]
  {
    var n := RunLength(d);
    assert d[..n] + d[n..] == d;
    AppendAssoc(d[..n], d[n..], b);
    RunLengthPrefix(d[..n], d[n..] + b);
  }

  /** Splits off the first character of a non-empty `x` in `x + d + b`. */
  lemma SplitFirst(x: string, d: string, b: string)
    requires x != []
    ensures x + d + b == [x[0]] + (x[1..] + d + b)
    ensures (x + d + b)[0] == x[0] && (x + d + b)[1..] == x[1..] + d + b
  {
    assert x == [x[0]] + x[1..];
  }

  /** A `version="` that does not start an occurrence still does not after the
      text behind it has been rewritten with a `[0-9.]*` value. */
  lemma {:induction false} NoMatchAfterOpening(w: string, v: string)
    requires AllVersionChars(v)
    requires MatchLength(Opening + w) == None
    ensures MatchLength(Opening + Rewrite(w, v)) == None
  {
    MatchAfterOpening(w);
    MatchAfterOpening(Rewrite(w, v));
    var n := RunLength(w);
    VersionCharsHaveNoV(w[..n]);
    assert w[..n] + w[n..] == w;
    RewriteSkipsPlain(w[..n], w[n..], v);
    var tail := Rewrite(w[n..], v);
    if n == |w| {
      RewriteShort(w[n..], v);
      RunLengthPrefix(w[..n], tail);
    } else {
      RewriteKeepsHead(w[n..], v);
      assert tail[0] == tail[..|Head(w[n..])|][0] == w[n];
      RunLengthPrefix(w[..n], tail);
      assert (w[..n] + tail)[n] == tail[0];
    }
  }

  /** A position where the pattern does not match still does not match after the
      rest of the text has been rewritten with a `[0-9.]*` value. */
  lemma {:induction false} NoMatchPreserved(s: string, v: string)
    requires AllVersionChars(v)
    requires s != [] && MatchLength(s) == None
    ensures MatchLength([s[0]] + Rewrite(s[1..], v)) == None
  {
    var t := s[1..];
    var y := [s[0]] + Rewrite(t, v);
    if |s| < 10 {
      RewriteShort(t, v);
      assert y == s;
    } else if StartsWith(s, Opening) {
      var w := s[9..];
      assert s == Opening + w;
      DropFirst(Opening, w);
      assert 'v' !in Opening[1..];
      RewriteSkipsPlain(Opening[1..], w, v);
      AppendAssoc([s[0]], Opening[1..], Rewrite(w, v));
      assert [s[0]] + Opening[1..] == Opening;
      NoMatchAfterOpening(w, v);
    } else {
      RewriteKeepsHead(t, v);
      assert y[..9] == s[..9] by {
        assert Rewrite(t, v)[..8] == Head(t)[..8] == t[..8];
        assert y[..9] == [s[0]] + Rewrite(t, v)[..8];
      }
    }
  }

  /** Dropping the first character of a concatenation with a non-empty left part. */
  lemma DropFirst(x: string, w: string)
    requires x != []
    ensures (x + w)[0] == x[0] && (x + w)[1..] == x[1..] + w
  {
  }

  /** Rewriting with `w` after rewriting with a `[0-9.]*` value `v` is the same
      as rewriting with `w` directly: the rewrite touches exactly the occurrence
      values and the new ones are found again at the same places. */
  lemma {:induction false} RewriteOverwrites(s: string, v: string, w: string)
    requires AllVersionChars(v)
    ensures Rewrite(Rewrite(s, v), w) == Rewrite(s, w)
    decreases |s|
  {
    if s != [] {
      match MatchLength(s)
      case Some(n) =>
        var rest := Rewrite(s[n..], v);
        RewriteOccurrence(v, rest, w);
        RewriteOverwrites(s[n..], v, w);
      case None =>
        NoMatchPreserved(s, v);
        var y := [s[0]] + Rewrite(s[1..], v);
        assert y[1..] == Rewrite(s[1..], v);
        RewriteOverwrites(s[1..], v, w);
    }
  }

  /** For a `[0-9.]*` version, rewriting already rewritten text changes nothing. */
  lemma RewriteIdempotent(s: string, v: string)
    requires AllVersionChars(v)
    ensures Rewrite(Rewrite(s, v), v) == Rewrite(s, v)
  {
    RewriteOverwrites(s, v, v);
  }

  /** Every occurrence of the pattern in `s` already holds `v`. */
  ghost predicate OccurrencesHold(s: string, v: string) {
    forall i, e :: 0 <= i <= |s| && OccurrenceAt(s[i..], e) ==> s[i + 9..i + e] == v
  }

  /** What holds of every occurrence in `s` holds of every occurrence in a suffix. */
  lemma OccurrencesHoldSuffix(s: string, v: string, k: nat)
    requires k <= |s| && OccurrencesHold(s, v)
    ensures OccurrencesHold(s[k..], v)
  {
    forall i, e | 0 <= i <= |s| - k && OccurrenceAt(s[k..][i..], e)
      ensures s[k..][i + 9..i + e] == v
    {
      assert s[k..][i..] == s[k + i..];
      assert s[k + i..][9..e] == s[k + i + 9..k + i + e];
    }
  }

  /** An occurrence at the start of `s` splits it into the opening, the value,
      the closing quote and the rest. */
  lemma Reassemble(s: string, e: int)
    requires OccurrenceAt(s, e)
    ensures s == Opening + s[9..e] + "\"" + s[e + 1..]
  {
    assert s == s[..e + 1] + s[e + 1..];
    assert s[..e + 1] == s[..e] + "\"";
    assert s[..e] == s[..9] + s[9..e];
  }

  /** Text in which every occurrence already holds `v` is left unchanged: the
      rewrite touches nothing outside the occurrence values. */
  lemma {:induction false} RewriteFixpoint(s: string, v: string)
    requires OccurrencesHold(s, v)
    ensures Rewrite(s, v) == s
    decreases |s|
  {
    if s != [] {
      match MatchLength(s)
      case Some(n) =>
        assert s[0..] == s;
        Reassemble(s, n - 1);
        OccurrencesHoldSuffix(s, v, n);
        RewriteFixpoint(s[n..], v);
      case None =>
        OccurrencesHoldSuffix(s, v, 1);
        RewriteFixpoint(s[1..], v);
    }
  }

  /** No occurrence of the pattern starts anywhere in `s`. */
  predicate NoOccurrence(s: string) {
    forall i :: 0 <= i < |s| ==> MatchLength(s[i..]) == None
  }

  /** `version="` appears in `s` at index `i`. */
  predicate OpeningAt(s: string, i: int) {
    0 <= i && i + 9 <= |s| && s[i..i + 9] == Opening
  }

  /** Text in which `version="` never appears holds no occurrence (a real
      config file's `xmlns` and `id` attributes are such text). */
  lemma NoOpeningNoOccurrence(s: string)
    requires forall i :: 0 <= i < |s| ==> !OpeningAt(s, i)
    ensures NoOccurrence(s)
  {
    forall i | 0 <= i < |s| ensures MatchLength(s[i..]) == None {
      assert !OpeningAt(s, i);
      if |s| - i >= 9 {
        assert s[i..][..9] == s[i..i + 9];
      }
    }
  }

  /** Text holding no occurrence is left unchanged. */
  lemma {:induction false} RewriteNoOccurrence(s: string, v: string)
    requires NoOccurrence(s)
    ensures Rewrite(s, v) == s
    decreases |s|
  {
    if s != [] {
      assert s[0..] == s;
      assert NoOccurrence(s[1..]) by {
        forall i | 0 <= i < |s[1..]| ensures MatchLength(s[1..][i..]) == None {
          assert s[1..][i..] == s[i + 1..];
        }
      }
      RewriteNoOccurrence(s[1..], v);
    }
  }

  /** Text in which no occurrence starts is copied through, whatever follows it. */
  lemma {:induction false} RewriteSkipsNoMatch(a: string, b: string, v: string)
    requires forall i :: 0 <= i < |a| ==> MatchLength((a + b)[i..]) == None
    ensures Rewrite(a + b, v) == a + Rewrite(b, v)
    decreases |a|
  {
    if a == [] {
      assert a + b == b;
    } else {
      assert (a + b)[0..] == a + b;
      DropFirst(a, b);
      forall i | 0 <= i < |a[1..]| ensures MatchLength((a[1..] + b)[i..]) == None {
        assert (a[1..] + b)[i..] == (a + b)[i + 1..];
      }
      RewriteSkipsNoMatch(a[1..], b, v);
    }
  }

  /** A position where the pattern does not match still does not match when
      text starting with `v` (such as the next `version="`) is appended. */
  lemma MatchNoneBeforeV(s: string, y: string)
    requires s != [] && MatchLength(s) == None
    requires y != [] && y[0] == 'v'
    ensures MatchLength(s + y) == None
  {
    PrefixSplit(s, y);
    if |s| >= 9 {
      assert (s + y)[..9] == s[..9];
      if StartsWith(s, Opening) {
        var w := s[9..];
        assert (s + y)[9..] == w + y;
        var n := RunLength(w);
        if n < |w| {
          RunLengthAppend(w, y);
        } else {
          assert w[..n] == w;
          RunLengthPrefix(w, y);
          assert (w + y)[|w|] == 'v';
        }
      }
    } else {
      assert 'v' !in Opening[1..];
      assert (s + y)[|s|] == 'v';
    }
  }

  /** Text holding no occurrence, followed by text starting with `v`: no
      occurrence starts in the first part of the whole either. */
  lemma NoOccurrenceBeforeV(x: string, y: string)
    requires NoOccurrence(x)
    requires y != [] && y[0] == 'v'
    ensures forall i :: 0 <= i < |x| ==> MatchLength((x + y)[i..]) == None
  {
    forall i | 0 <= i < |x| ensures MatchLength((x + y)[i..]) == None {
      assert (x + y)[i..] == x[i..] + y;
      MatchNoneBeforeV(x[i..], y);
    }
  }
}
