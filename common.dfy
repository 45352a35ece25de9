/** Small shared vocabulary: optional values, results, the numeric stand-ins for
    C# `decimal` and `DateTime`, and first-match lookup over a table. */
module Common {

  /** A nullable value (`T?` in C#). */
  datatype Option<T> = None | Some(value: T)

  /** Either a value or the error that stopped the computation. */
  datatype Result<T, E> = Success(value: T) | Failure(error: E)

  /** C# `decimal` is exact decimal arithmetic; it is modelled by (exact) reals. */
  type Money = real

  /** A `DateTime`, as a count of clock ticks. */
  type Timestamp = int

  /** Index of the first element of `s` that satisfies `p`, or None.
      This is what `FirstOrDefaultAsync(p)` and a key lookup return over a
      table whose rows are kept in retrieval order. */
  function FirstIndex<T>(s: seq<T>, p: T -> bool): (r: Option<nat>)
    ensures r.Some? ==> r.value < |s| && p(s[r.value])
    ensures r.Some? ==> forall j :: 0 <= j < r.value ==> !p(s[j])
    ensures r.None? ==> forall j :: 0 <= j < |s| ==> !p(s[j])
  {
    if |s| == 0 then None
    else if p(s[0]) then Some(0)
    else match FirstIndex(s[1..], p)
      case None => None
      case Some(k) => Some(k + 1)
  }

  /** Two tables that agree on the predicate at every row have the same first match. */
  lemma {:induction false} FirstIndexUnchanged<T>(a: seq<T>, b: seq<T>, p: T -> bool, i: nat)
    requires |a| == |b|
    requires forall j :: 0 <= j < |a| ==> p(a[j]) == p(b[j])
    requires FirstIndex(a, p) == Some(i)
    ensures FirstIndex(b, p) == Some(i)
    decreases |a|
  {
    if !p(b[0]) {
      FirstIndexUnchanged(a[1..], b[1..], p, i - 1);
    }
  }
}

/** The string operations the controllers use, restricted to what the model
    needs: ASCII case folding, ordinal substring search and ordinal order. */
module Text {
  import opened Common

  /** `char.IsWhiteSpace`: the Unicode White_Space characters. */
  predicate IsWhiteSpace(c: char) {
    || c == ' '
    || ('\U{0009}' <= c <= '\U{000D}')
    || c == '\U{0085}' || c == '\U{00A0}' || c == '\U{1680}'
    || ('\U{2000}' <= c <= '\U{200A}')
    || c == '\U{2028}' || c == '\U{2029}' || c == '\U{202F}' || c == '\U{205F}' || c == '\U{3000}'
  }

  /** `string.IsNullOrWhiteSpace`. */
  predicate IsNullOrWhiteSpace(s: Option<string>) {
    s.None? || forall i :: 0 <= i < |s.value| ==> IsWhiteSpace(s.value[i])
  }

  function ToLowerChar(c: char): char {
    if 'A' <= c <= 'Z' then (c as int + 32) as char else c
  }

  /** `ToLower()`, folding ASCII letters only (as SQLite's `lower()` does). */
  function ToLower(s: string): string {
    seq(|s|, i requires 0 <= i < |s| => ToLowerChar(s[i]))
  }

  /** `string.Contains`: ordinal substring test (the empty string occurs everywhere). */
  predicate Contains(s: string, sub: string) {
    exists i | 0 <= i <= |s| - |sub| :: OccursAt(s, sub, i)
  }

  predicate OccursAt(s: string, sub: string, i: int) {
    0 <= i <= |s| - |sub| && s[i..i + |sub|] == sub
  }

  /** `a.Equals(b, StringComparison.OrdinalIgnoreCase)`, for ASCII letters. */
  predicate EqualsIgnoreCase(a: string, b: string) {
    ToLower(a) == ToLower(b)
  }

  /** Ordinal (code-point by code-point) order on strings. */
  predicate StrLe(a: string, b: string)
    decreases |a|
  {
    a == [] || (b != [] && (a[0] < b[0] || (a[0] == b[0] && StrLe(a[1..], b[1..]))))
  }

  lemma {:induction false} StrLeReflexive(a: string)
    ensures StrLe(a, a)
    decreases |a|
  {
    if a != [] {
      StrLeReflexive(a[1..]);
    }
  }

  lemma {:induction false} StrLeTotal(a: string, b: string)
    ensures StrLe(a, b) || StrLe(b, a)
    decreases |a|
  {
    if a != [] && b != [] && a[0] == b[0] {
      StrLeTotal(a[1..], b[1..]);
    }
  }

  lemma {:induction false} StrLeTransitive(a: string, b: string, c: string)
    requires StrLe(a, b) && StrLe(b, c)
    ensures StrLe(a, c)
    decreases |a|
  {
    if a != [] && b != [] && c != [] && a[0] == b[0] && b[0] == c[0] {
      StrLeTransitive(a[1..], b[1..], c[1..]);
    }
  }
}
