/** String operations the front end and the dataset scripts rely on:
    JS `trim` / Python `strip`, `toLowerCase` / `lower`, `includes`,
    Python `split(',')`, and the "first n characters + '...'" truncation. */
module Text {
  import opened Seqs

  /** The six characters that both `trim()` and `strip()` remove: space, tab,
      line feed, carriage return, vertical tab and form feed. */
  predicate IsSpace(c: char) {
    c == ' ' || c == '\t' || c == '\n' || c == '\r' || c == '\U{0B}' || c == '\U{0C}'
  }

  /** The number of leading whitespace characters. */
  function LeadingSpaces(s: string): (k: nat)
    ensures k <= |s|
  {
    if s != [] && IsSpace(s[0]) then 1 + LeadingSpaces(s[1..]) else 0
  }

  /** The position where the trailing whitespace starts. */
  function TrailingStart(s: string): (k: nat)
    ensures k <= |s|
  {
    if s != [] && IsSpace(s[|s| - 1]) then TrailingStart(s[..|s| - 1]) else |s|
  }

  lemma {:induction false} LeadingSpacesSpec(s: string)
    ensures forall i :: 0 <= i < LeadingSpaces(s) ==> IsSpace(s[i])
    ensures LeadingSpaces(s) < |s| ==> !IsSpace(s[LeadingSpaces(s)])
  {
    if s != [] && IsSpace(s[0]) {
      LeadingSpacesSpec(s[1..]);
    }
  }

  lemma {:induction false} TrailingStartSpec(s: string)
    ensures forall i :: TrailingStart(s) <= i < |s| ==> IsSpace(s[i])
    ensures TrailingStart(s) > 0 ==> !IsSpace(s[TrailingStart(s) - 1])
  {
    if s != [] && IsSpace(s[|s| - 1]) {
      TrailingStartSpec(s[..|s| - 1]);
    }
  }

  function StripLeft(s: string): string {
    s[LeadingSpaces(s)..]
  }

  function StripRight(s: string): string {
    s[..TrailingStart(s)]
  }

  /** Removes leading and trailing whitespace. */
  function Strip(s: string): string {
    StripRight(StripLeft(s))
  }

  predicate AllSpace(s: string) {
    forall i :: 0 <= i < |s| ==> IsSpace(s[i])
  }

  /** What `strip()` returns: a slice of the input, with only whitespace cut off
      on either side, that neither starts nor ends with whitespace. */
  lemma StripShape(s: string)
    ensures exists i, j :: 0 <= i <= j <= |s| && Strip(s) == s[i..j] && AllSpace(s[..i]) && AllSpace(s[j..])
    ensures Strip(s) == [] || (!IsSpace(Strip(s)[0]) && !IsSpace(Strip(s)[|Strip(s)| - 1]))
  {
    var i := LeadingSpaces(s);
    var l := s[i..];
    var k := TrailingStart(l);
    LeadingSpacesSpec(s);
    TrailingStartSpec(l);
    assert Strip(s) == s[i..i + k];
    assert AllSpace(s[..i]);
    assert AllSpace(s[i + k..]) by {
      forall m | i + k <= m < |s| ensures IsSpace(s[m]) {
        assert s[m] == l[m - i];
      }
    }
    if k > 0 {
      assert Strip(s)[0] == s[i];
    }
  }

  /** A string that neither starts nor ends with whitespace is left as it is. */
  lemma StripNoOp(s: string)
    requires s == [] || (!IsSpace(s[0]) && !IsSpace(s[|s| - 1]))
    ensures Strip(s) == s
  {
    assert LeadingSpaces(s) == 0;
    assert s[0..] == s;
  }

  /** `s.strip() == ""` exactly when `s` is all whitespace. */
  lemma StripEmpty(s: string)
    ensures Strip(s) == [] <==> AllSpace(s)
  {
    var i := LeadingSpaces(s);
    LeadingSpacesSpec(s);
    if i < |s| {
      var l := s[i..];
      TrailingStartSpec(l);
      assert !IsSpace(l[0]);
      assert TrailingStart(l) > 0;
    }
  }

  lemma StripIdempotent(s: string)
    ensures Strip(Strip(s)) == Strip(s)
  {
    StripShape(s);
    StripNoOp(Strip(s));
  }

  /** JS `toLowerCase` / Python `lower`, on ASCII letters. */
  function LowerChar(c: char): char {
    if 'A' <= c <= 'Z' then (c as int + 32) as char else c
  }

  function Lower(s: string): (r: string)
    ensures |r| == |s|
    ensures forall i :: 0 <= i < |s| ==> r[i] == LowerChar(s[i])
  {
    if s == [] then [] else [LowerChar(s[0])] + Lower(s[1..])
  }

  lemma LowerIdempotent(s: string)
    ensures Lower(Lower(s)) == Lower(s)
  {
  }

  /** `sub` occurs in `s` starting at index `k`. */
  predicate OccursAt(s: string, sub: string, k: int) {
    0 <= k && k + |sub| <= |s| && s[k..k + |sub|] == sub
  }

  /** `s.includes(sub)` (JS) / `sub in s` (Python): `sub` occurs at some index. */
  predicate Contains(s: string, sub: string) {
    exists k :: 0 <= k <= |s| && OccursAt(s, sub, k)
  }

  /** Python `s.split(sep)`: the pieces between separators, always at least one. */
  function Split(s: string, sep: char): (r: seq<string>)
    ensures |r| >= 1
  {
    if s == [] then [""]
    else
      var rest := Split(s[1..], sep);
      if s[0] == sep then [""] + rest else [[s[0]] + rest[0]] + rest[1..]
  }

  /** Python `sep.join(pieces)`. */
  function Join(pieces: seq<string>, sep: char): string
    requires |pieces| >= 1
  {
    if |pieces| == 1 then pieces[0] else pieces[0] + [sep] + Join(pieces[1..], sep)
  }

  /** Splitting loses nothing: joining the pieces gives back the input,
      and no piece holds the separator. */
  lemma {:induction false} SplitJoin(s: string, sep: char)
    ensures Join(Split(s, sep), sep) == s
    ensures forall p :: p in Split(s, sep) ==> sep !in p
  {
    if s != [] {
      var rest := Split(s[1..], sep);
      SplitJoin(s[1..], sep);
      if s[0] == sep {
        assert Split(s, sep) == [""] + rest;
        assert (Split(s, sep))[1..] == rest;
        assert s == [sep] + s[1..];
      } else {
        var r := Split(s, sep);
        assert r == [[s[0]] + rest[0]] + rest[1..];
        assert rest[0] in rest;
        if |rest| == 1 {
          assert s == [s[0]] + rest[0];
        } else {
          assert r[1..] == rest[1..];
          assert Join(rest, sep) == rest[0] + [sep] + Join(rest[1..], sep);
          assert s == [s[0]] + s[1..];
        }
        forall p | p in r ensures sep !in p {
          if p == r[0] {
            assert p == [s[0]] + rest[0];
          } else {
            var k :| 0 <= k < |r| && r[k] == p;
            assert p == rest[k];
          }
        }
      }
    }
  }

  /** With no separator present, the whole string is the one piece. */
  lemma {:induction false} SplitWithoutSep(s: string, sep: char)
    requires sep !in s
    ensures Split(s, sep) == [s]
  {
    if s != [] {
      SplitWithoutSep(s[1..], sep);
      assert s == [s[0]] + s[1..];
    }
  }

  /** `[p.strip() for p in pieces if p.strip()]`. */
  function StrippedNonEmpty(pieces: seq<string>): (r: seq<string>)
    ensures forall i :: 0 <= i < |r| ==> r[i] != "" && Strip(r[i]) == r[i]
    ensures forall x :: x in r <==> x != "" && exists p :: p in pieces && Strip(p) == x
  {
    if pieces == [] then []
    else
      var t := Strip(pieces[0]);
      StripIdempotent(pieces[0]);
      var rest := StrippedNonEmpty(pieces[1..]);
      assert forall p :: p in pieces <==> p == pieces[0] || p in pieces[1..];
      (if t != "" then [t] else []) + rest
  }

  predicate NonEmpty(t: string) {
    t != ""
  }

  /** The comprehension keeps the stripped pieces in their order, each as
      often as it occurs, and drops only the empty ones. */
  lemma {:induction false} StrippedNonEmptyOrder(pieces: seq<string>)
    ensures StrippedNonEmpty(pieces) == Filter(Map(pieces, Strip), NonEmpty)
  {
    if pieces != [] {
      StrippedNonEmptyOrder(pieces[1..]);
      var m := Map(pieces, Strip);
      assert m[0] == Strip(pieces[0]);
      assert m[1..] == Map(pieces[1..], Strip);
    }
  }

  /** The stripped, non-empty pieces of `s.split(sep)` hold no separator. */
  lemma SplitStrippedClean(s: string, sep: char)
    ensures forall t :: t in StrippedNonEmpty(Split(s, sep)) ==> t != "" && Strip(t) == t && sep !in t
  {
    SplitJoin(s, sep);
    forall t | t in StrippedNonEmpty(Split(s, sep)) ensures sep !in t {
      var p :| p in Split(s, sep) && Strip(p) == t;
      StripShape(p);
    }
  }

  /** `s[:n] + '...' if len(s) > n else s` (Python) and
      `s.substring(0, n) + (s.length > n ? '...' : '')` (JS). */
  function Ellipsize(s: string, n: nat): (r: string)
    ensures |r| <= n + 3
    ensures |s| <= n ==> r == s
    ensures |s| > n ==> |r| == n + 3 && r[..n] == s[..n] && r[n..] == "..."
  {
    if |s| > n then s[..n] + "..." else s
  }
}
