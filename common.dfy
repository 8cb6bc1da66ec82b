/**
 * Small shared vocabulary: optional values, the java.util collection
 * operations the traffic core relies on (remove-first, indexOf) and the
 * handful of java.lang.String operations it uses (equalsIgnoreCase,
 * contains, split on a separator).
 */
module Common {

  /** A Java reference that may be null. */
  datatype Option<T> = None | Some(value: T)

  /** A value, or the exception a Java method would throw instead. */
  datatype Result<T> = Ok(value: T) | Err(message: string)

  /** No element occurs twice. */
  predicate NoDup<T(==)>(s: seq<T>)
  {
    forall i, j :: 0 <= i < j < |s| ==> s[i] != s[j]
  }

  /** List.indexOf / ArrayList.indexOf: the first position of x, or -1. */
  function IndexOf<T(==)>(s: seq<T>, x: T): (i: int)
    ensures -1 <= i < |s|
    ensures i == -1 <==> x !in s
    ensures 0 <= i ==> s[i] == x && x !in s[..i]
    decreases |s|
  {
    if s == [] then -1
    else if s[0] == x then 0
    else
      var k := IndexOf(s[1..], x);
      if k == -1 then -1
      else
        assert s[..k + 1] == [s[0]] + s[1..][..k];
        k + 1
  }

  /**
   * Collection.remove(Object) on a list or queue: drops the first
   * occurrence of x and keeps the order of everything else.
   */
  function RemoveFirst<T(==)>(s: seq<T>, x: T): (r: seq<T>)
    ensures x !in s ==> r == s
    ensures multiset(r) == multiset(s) - multiset{x}
    decreases |s|
  {
    if s == [] then []
    else
      assert s == [s[0]] + s[1..];
      if s[0] == x then s[1..]
      else [s[0]] + RemoveFirst(s[1..], x)
  }

  /** The element removed is the first occurrence; the rest keeps its order. */
  lemma {:induction false} RemoveFirstSplit<T>(s: seq<T>, x: T)
    requires x in s
    ensures RemoveFirst(s, x) == s[..IndexOf(s, x)] + s[IndexOf(s, x) + 1..]
    decreases |s|
  {
    if s[0] != x {
      RemoveFirstSplit(s[1..], x);
      var k := IndexOf(s[1..], x);
      assert s[..k + 1] == [s[0]] + s[1..][..k];
      assert s[k + 2..] == s[1..][k + 1..];
    }
  }

  /** Removal touches only x: every other element is present afterwards exactly when before. */
  lemma RemoveFirstKeepsOthers<T>(s: seq<T>, x: T, y: T)
    requires y != x
    ensures y in RemoveFirst(s, x) <==> y in s
  {
    assert multiset(RemoveFirst(s, x))[y] == multiset(s)[y];
  }

  /** Removing from a duplicate-free list removes every copy and keeps it duplicate-free. */
  lemma {:induction false} RemoveFirstNoDup<T>(s: seq<T>, x: T)
    requires NoDup(s)
    ensures NoDup(RemoveFirst(s, x))
    ensures x !in RemoveFirst(s, x)
    decreases |s|
  {
    if s != [] {
      var r := RemoveFirst(s, x);
      assert s[0] !in s[1..] by {
        forall m | 0 <= m < |s[1..]| ensures s[1..][m] != s[0] {
          assert s[1..][m] == s[m + 1];
        }
      }
      if s[0] != x {
        RemoveFirstNoDup(s[1..], x);
        NoDupStep(s[0], s[1..], RemoveFirst(s[1..], x));
      } else {
        assert r == s[1..];
        forall i, j | 0 <= i < j < |r| ensures r[i] != r[j] {
          assert r[i] == s[i + 1] && r[j] == s[j + 1];
        }
      }
    }
  }

  lemma NoDupStep<T>(h: T, t: seq<T>, r: seq<T>)
    requires NoDup(r) && h !in t && multiset(r) <= multiset(t)
    ensures NoDup([h] + r) && h !in r
  {
    assert h !in r by {
      assert multiset(r)[h] <= multiset(t)[h];
    }
    var hr := [h] + r;
    forall i, j | 0 <= i < j < |hr| ensures hr[i] != hr[j] {
      assert hr[j] == r[j - 1];
      if i > 0 {
        assert hr[i] == r[i - 1];
      }
    }
  }

  /** The first occurrence of x in a sequence without duplicates is its only one. */
  lemma IndexOfUnique<T>(s: seq<T>, i: int)
    requires NoDup(s) && 0 <= i < |s|
    ensures IndexOf(s, s[i]) == i
  {
    var k := IndexOf(s, s[i]);
    assert s[k] == s[i];
  }

  // ---------------------------------------------------------------------
  // java.lang.String
  // ---------------------------------------------------------------------

  /**
   * The folding under which String.equalsIgnoreCase matches a character
   * with an ASCII letter: an upper-case ASCII letter folds to its
   * lower-case form, and so do the four other characters Java matches with
   * an ASCII letter: U+0130 and U+0131 (capital I with dot, dotless i) with
   * 'i', U+017F (long s) with 's' and U+212A (Kelvin sign) with 'k'. Every
   * other character folds to itself.
   */
  function FoldCase(c: char): (d: char)
    ensures 'A' <= c <= 'Z' ==> 'a' <= d <= 'z' && d as int - c as int == 'a' as int - 'A' as int
    ensures c == '\U{0130}' || c == '\U{0131}' ==> d == 'i'
    ensures c == '\U{017F}' ==> d == 's'
    ensures c == '\U{212A}' ==> d == 'k'
    ensures !('A' <= c <= 'Z') && c !in {'\U{0130}', '\U{0131}', '\U{017F}', '\U{212A}'} ==> d == c
  {
    if 'A' <= c <= 'Z' then (c as int - 'A' as int + 'a' as int) as char
    else if c == '\U{0130}' || c == '\U{0131}' then 'i'
    else if c == '\U{017F}' then 's'
    else if c == '\U{212A}' then 'k'
    else c
  }

  /** String.equalsIgnoreCase: same length, and the characters agree position by position once folded. */
  predicate EqualsIgnoreCase(a: string, b: string)
  {
    |a| == |b| && forall i :: 0 <= i < |a| ==> FoldCase(a[i]) == FoldCase(b[i])
  }

  lemma EqualsIgnoreCaseSymmetric(a: string, b: string)
    ensures EqualsIgnoreCase(a, b) <==> EqualsIgnoreCase(b, a)
  {
  }

  lemma EqualsIgnoreCaseTransitive(a: string, b: string, c: string)
    requires EqualsIgnoreCase(a, b) && EqualsIgnoreCase(b, c)
    ensures EqualsIgnoreCase(a, c)
  {
  }

  /** String.contains. */
  predicate Contains(s: string, p: string)
    decreases |s|
  {
    |p| <= |s| && (s[..|p|] == p || Contains(s[1..], p))
  }

  /** Every character of a contained string occurs in the containing one. */
  lemma {:induction false} ContainsChars(s: string, p: string, k: nat)
    requires Contains(s, p) && k < |p|
    ensures p[k] in s
    decreases |s|
  {
    if s[..|p|] == p {
      assert s[k] == p[k];
    } else {
      ContainsChars(s[1..], p, k);
    }
  }

  /** A string contains itself wherever it starts. */
  lemma {:induction false} ContainsAt(s: string, p: string, i: nat)
    requires i + |p| <= |s| && s[i..i + |p|] == p
    ensures Contains(s, p)
    decreases i
  {
    if i > 0 {
      assert s[1..][i - 1..i - 1 + |p|] == s[i..i + |p|];
      ContainsAt(s[1..], p, i - 1);
    } else {
      assert s[..|p|] == s[0..|p|];
    }
  }

  /**
   * String.split(sep)[0] for a one-character separator: the text before the
   * first separator. Java drops trailing empty pieces, so a non-empty string
   * made only of separators splits into no pieces at all and indexing [0]
   * throws; the empty string splits into [""].
   */
  function FirstPiece(s: string, sep: char): (r: Result<string>)
    ensures r.Err? <==> |s| > 0 && forall i :: 0 <= i < |s| ==> s[i] == sep
    ensures r.Ok? ==> sep !in r.value && r.value <= s
    ensures r.Ok? && r.value != s ==> s[|r.value|] == sep
  {
    if |s| > 0 && forall i :: 0 <= i < |s| ==> s[i] == sep then Err("ArrayIndexOutOfBoundsException")
    else
      var k := IndexOf(s, sep);
      if k == -1 then Ok(s) else Ok(s[..k])
  }
}
