/** Orderings and the sorted, duplicate-free listings pandas produces when it
    sorts group keys and pivot columns. */
module Order {

  /** `less` is a strict total order: irreflexive, transitive, and it relates
      any two different values one way or the other. */
  ghost predicate StrictTotal<T(!new)>(less: (T, T) -> bool) {
    && (forall x :: !less(x, x))
    && (forall x, y, z :: less(x, y) && less(y, z) ==> less(x, z))
    && (forall x, y :: x != y ==> less(x, y) || less(y, x))
  }

  /** Each element comes strictly before every later one. */
  ghost predicate SortedBy<T>(s: seq<T>, less: (T, T) -> bool) {
    forall i, j :: 0 <= i < j < |s| ==> less(s[i], s[j])
  }

  ghost predicate Distinct<T>(s: seq<T>) {
    forall i, j :: 0 <= i < j < |s| ==> s[i] != s[j]
  }

  lemma SortedIsDistinct<T(!new)>(s: seq<T>, less: (T, T) -> bool)
    requires StrictTotal(less) && SortedBy(s, less)
    ensures Distinct(s)
  {
  }

  /** Inserts `x` into a sorted sequence, keeping it sorted and without repeats. */
  function Insert<T(==,!new)>(x: T, s: seq<T>, less: (T, T) -> bool): (r: seq<T>)
    requires StrictTotal(less) && SortedBy(s, less)
    ensures SortedBy(r, less)
    ensures forall y :: y in r <==> y == x || y in s
  {
    if s == [] then [x]
    else if x == s[0] then s
    else if less(x, s[0]) then [x] + s
    else
      var rest := Insert(x, s[1..], less);
      assert forall k :: 0 <= k < |rest| ==> less(s[0], rest[k]) by {
        forall k | 0 <= k < |rest| ensures less(s[0], rest[k]) {
          assert rest[k] == x || rest[k] in s[1..];
        }
      }
      [s[0]] + rest
  }

  /** The values of `xs`, each once, in ascending order. */
  function SortedSet<T(==,!new)>(xs: seq<T>, less: (T, T) -> bool): (r: seq<T>)
    requires StrictTotal(less)
    ensures SortedBy(r, less)
    ensures forall y :: y in r <==> y in xs
  {
    if xs == [] then [] else Insert(xs[0], SortedSet(xs[1..], less), less)
  }

  /** Lexicographic order built from an order on the elements, a proper prefix
      coming first: Python's order on strings and on tuples. */
  function Lex<T(==)>(a: seq<T>, b: seq<T>, less: (T, T) -> bool): bool {
    if a == [] then b != []
    else if b == [] then false
    else less(a[0], b[0]) || (a[0] == b[0] && Lex(a[1..], b[1..], less))
  }

  lemma {:induction false} LexIrreflexive<T(!new)>(a: seq<T>, less: (T, T) -> bool)
    requires StrictTotal(less)
    ensures !Lex(a, a, less)
  {
    if a != [] {
      LexIrreflexive(a[1..], less);
    }
  }

  lemma {:induction false} LexTransitive<T(!new)>(a: seq<T>, b: seq<T>, c: seq<T>, less: (T, T) -> bool)
    requires StrictTotal(less) && Lex(a, b, less) && Lex(b, c, less)
    ensures Lex(a, c, less)
  {
    if a != [] && a[0] == b[0] && b[0] == c[0] {
      LexTransitive(a[1..], b[1..], c[1..], less);
    }
  }

  lemma {:induction false} LexTotal<T(!new)>(a: seq<T>, b: seq<T>, less: (T, T) -> bool)
    requires StrictTotal(less) && a != b
    ensures Lex(a, b, less) || Lex(b, a, less)
  {
    if a != [] && b != [] && a[0] == b[0] {
      assert a == [a[0]] + a[1..] && b == [b[0]] + b[1..];
      LexTotal(a[1..], b[1..], less);
    }
  }

  predicate CharBefore(x: char, y: char) {
    x < y
  }

  /** Python's comparison of str values: by code point, a prefix first. */
  predicate StrBefore(a: string, b: string) {
    Lex(a, b, CharBefore)
  }

  /** Python's comparison of tuples of strings, as pandas sorts group keys. */
  predicate KeyBefore(a: seq<string>, b: seq<string>) {
    Lex(a, b, StrBefore)
  }

  lemma StrBeforeIsStrictTotal()
    ensures StrictTotal(StrBefore)
  {
    assert StrictTotal(CharBefore);
    forall x: string ensures !StrBefore(x, x) {
      LexIrreflexive(x, CharBefore);
    }
    forall x: string, y: string, z: string | StrBefore(x, y) && StrBefore(y, z)
      ensures StrBefore(x, z)
    {
      LexTransitive(x, y, z, CharBefore);
    }
    forall x: string, y: string | x != y ensures StrBefore(x, y) || StrBefore(y, x) {
      LexTotal(x, y, CharBefore);
    }
  }

  lemma KeyBeforeIsStrictTotal()
    ensures StrictTotal(KeyBefore)
  {
    StrBeforeIsStrictTotal();
    forall x: seq<string> ensures !KeyBefore(x, x) {
      LexIrreflexive(x, StrBefore);
    }
    forall x: seq<string>, y: seq<string>, z: seq<string> | KeyBefore(x, y) && KeyBefore(y, z)
      ensures KeyBefore(x, z)
    {
      LexTransitive(x, y, z, StrBefore);
    }
    forall x: seq<string>, y: seq<string> | x != y ensures KeyBefore(x, y) || KeyBefore(y, x) {
      LexTotal(x, y, StrBefore);
    }
  }
}
