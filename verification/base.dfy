/** The usual optional-value wrapper: `None` stands for Java's `null` result
    or for an exception the caller is expected to avoid. */
module Wrappers {
  datatype Option<+T> = None | Some(value: T)
}

/** Sequence helpers shared by the board, the cursors and the engine.
    A Java `List<List<Carta>>` (foundations, tableau) is a `seq<seq<T>>`. */
module Secuencias {

  /** Column-major concatenation: column 0 bottom to top, then column 1, ... */
  function Aplanar<T>(t: seq<seq<T>>): seq<T>
  {
    if t == [] then [] else t[0] + Aplanar(t[1..])
  }

  /** Sum of the column lengths, accumulated from the last column backwards
      (the way a left-to-right running total ends up). */
  function SumaLongitudes<T>(t: seq<seq<T>>): nat
  {
    if t == [] then 0 else SumaLongitudes(t[..|t| - 1]) + |t[|t| - 1]|
  }

  /** Moving the head of `quedan` to the end of `vistas` keeps the
      concatenation. */
  lemma ConcatenarPrimero<T>(vistas: seq<T>, quedan: seq<T>, x: T, resto: seq<T>)
    requires quedan == [x] + resto
    ensures vistas + [x] + resto == vistas + quedan
  {
  }

  /** Columns that are all empty hold no cards. */
  lemma {:induction false} SumaLongitudesVacias<T>(t: seq<seq<T>>)
    requires forall c :: 0 <= c < |t| ==> t[c] == []
    ensures SumaLongitudes(t) == 0
  {
    if t != [] {
      SumaLongitudesVacias(t[..|t| - 1]);
    }
  }

  lemma {:induction false} AplanarConcat<T>(a: seq<seq<T>>, b: seq<seq<T>>)
    ensures Aplanar(a + b) == Aplanar(a) + Aplanar(b)
  {
    if a == [] {
      assert a + b == b;
    } else {
      assert (a + b)[1..] == a[1..] + b;
      AplanarConcat(a[1..], b);
    }
  }

  /** Extending a prefix of the columns by one column appends that column. */
  lemma AplanarPrefijo<T>(t: seq<seq<T>>, c: nat)
    requires c < |t|
    ensures Aplanar(t[..c + 1]) == Aplanar(t[..c]) + t[c]
  {
    assert t[..c + 1] == t[..c] + [t[c]];
    AplanarConcat(t[..c], [t[c]]);
    assert Aplanar([t[c]]) == t[c] + Aplanar([t[c]][1..]);
    assert [t[c]][1..] == [];
  }

  /** The flattening splits around any column. */
  lemma AplanarPartido<T>(t: seq<seq<T>>, c: nat)
    requires c < |t|
    ensures Aplanar(t) == Aplanar(t[..c]) + t[c] + Aplanar(t[c + 1..])
  {
    assert t == t[..c + 1] + t[c + 1..];
    AplanarConcat(t[..c + 1], t[c + 1..]);
    AplanarPrefijo(t, c);
  }

  /** The length of the flattening is the sum of the column lengths. */
  lemma {:induction false} LongitudAplanar<T>(t: seq<seq<T>>)
    ensures |Aplanar(t)| == SumaLongitudes(t)
    decreases |t|
  {
    if t != [] {
      var n := |t| - 1;
      assert t == t[..n] + [t[n]];
      AplanarConcat(t[..n], [t[n]]);
      assert Aplanar([t[n]]) == t[n] + Aplanar([t[n]][1..]);
      assert [t[n]][1..] == [];
      LongitudAplanar(t[..n]);
    }
  }

  /** Card `k` of column `c` sits at offset |Aplanar(t[..c])| + k of the flattening. */
  lemma AplanarEn<T>(t: seq<seq<T>>, c: nat, k: nat)
    requires c < |t| && k < |t[c]|
    ensures |Aplanar(t[..c])| + k < |Aplanar(t)|
    ensures Aplanar(t)[|Aplanar(t[..c])| + k] == t[c][k]
  {
    AplanarPartido(t, c);
  }

  /** An element of the flattening lies in some column, and conversely. */
  lemma {:induction false} EnAplanar<T>(t: seq<seq<T>>, x: T)
    ensures x in Aplanar(t) <==> exists c :: 0 <= c < |t| && x in t[c]
  {
    if t != [] {
      EnAplanar(t[1..], x);
      if x in Aplanar(t[1..]) {
        var c :| 0 <= c < |t[1..]| && x in t[1..][c];
        assert x in t[c + 1];
      }
      if exists c :: 0 <= c < |t| && x in t[c] {
        var c :| 0 <= c < |t| && x in t[c];
        if c > 0 { assert x in t[1..][c - 1]; }
      }
    }
  }

  /** Replacing one column changes the total by the difference in its length. */
  lemma {:induction false} SumaLongitudesActualizar<T>(t: seq<seq<T>>, j: nat, col: seq<T>)
    requires j < |t|
    ensures SumaLongitudes(t[j := col]) + |t[j]| == SumaLongitudes(t) + |col|
    decreases |t|
  {
    var n := |t| - 1;
    if j < n {
      assert t[j := col][..n] == t[..n][j := col];
      SumaLongitudesActualizar(t[..n], j, col);
    } else {
      assert t[j := col][..n] == t[..n];
    }
  }

  /** Replacing one column replaces its cards in the flattening's multiset. */
  lemma AplanarActualizar<T>(t: seq<seq<T>>, c: nat, col: seq<T>)
    requires c < |t|
    ensures multiset(Aplanar(t[c := col])) + multiset(t[c]) == multiset(Aplanar(t)) + multiset(col)
  {
    var u := t[c := col];
    AplanarPartido(t, c);
    AplanarPartido(u, c);
    assert u[..c] == t[..c] && u[c + 1..] == t[c + 1..];
  }

  /** Appending to one column adds exactly the appended elements to the
      flattening's multiset. */
  lemma AplanarAnexar<T>(t: seq<seq<T>>, c: nat, xs: seq<T>)
    requires c < |t|
    ensures multiset(Aplanar(t[c := t[c] + xs])) == multiset(Aplanar(t)) + multiset(xs)
  {
    var u := t[c := t[c] + xs];
    AplanarPartido(t, c);
    AplanarPartido(u, c);
    assert u[..c] == t[..c] && u[c + 1..] == t[c + 1..];
  }

  /** Elements of a sequence in reverse order (`Collections` pop-and-push order). */
  function Invertido<T>(s: seq<T>): (r: seq<T>)
    ensures |r| == |s|
    ensures forall i :: 0 <= i < |s| ==> r[i] == s[|s| - 1 - i]
  {
    seq(|s|, i requires 0 <= i < |s| => s[|s| - 1 - i])
  }

  /** Reversal peels off the first element to the end. */
  lemma InvertidoPaso<T>(s: seq<T>)
    requires s != []
    ensures Invertido(s) == Invertido(s[1..]) + [s[0]]
  {
    var r, q := Invertido(s), Invertido(s[1..]) + [s[0]];
    forall i | 0 <= i < |s| ensures r[i] == q[i] {
      if i < |s| - 1 {
        assert q[i] == Invertido(s[1..])[i] == s[1..][|s| - 2 - i];
      }
    }
  }

  /** Reversing twice gives the sequence back. */
  lemma InvertidoInvolutivo<T>(s: seq<T>)
    ensures Invertido(Invertido(s)) == s
  {
    var r := Invertido(Invertido(s));
    forall i | 0 <= i < |s| ensures r[i] == s[i] {
      assert Invertido(s)[|s| - 1 - i] == s[i];
    }
  }

  /** The first `k` of the reversal are the reversal of the last `k`. */
  lemma InvertidoPrefijo<T>(s: seq<T>, k: nat)
    requires k <= |s|
    ensures Invertido(s)[..k] == Invertido(s[|s| - k..])
  {
    var c := s[|s| - k..];
    var i, ic := Invertido(s), Invertido(c);
    forall j | 0 <= j < k ensures i[j] == ic[j] {
      assert ic[j] == c[k - 1 - j];
    }
    assert i[..k] == ic;
  }

  /** Reversal keeps the elements and their multiplicities. */
  lemma {:induction false} InvertidoMultiset<T>(s: seq<T>)
    ensures multiset(Invertido(s)) == multiset(s)
    decreases |s|
  {
    if s != [] {
      InvertidoPaso(s);
      InvertidoMultiset(s[1..]);
      assert s == [s[0]] + s[1..];
    }
  }

  /** No element occurs twice. */
  predicate Distintas<T(==)>(s: seq<T>)
  {
    forall i, j :: 0 <= i < j < |s| ==> s[i] != s[j]
  }

  /** Moving one element from the front of the rest to the end of the prefix. */
  lemma PrefijoAvanza<T>(a: seq<T>, p: nat, r: seq<T>)
    requires p <= |a| && a[..p] + r == a && r != []
    ensures p < |a| && r[0] == a[p]
    ensures a[..p + 1] + r[1..] == a
  {
    assert |r| == |a| - p;
    assert (a[..p] + r)[p] == r[0];
    assert a[..p + 1] == a[..p] + [r[0]];
    assert a[..p] + r == a[..p] + [r[0]] + r[1..];
  }

  /** A prefix of a sequence without repetitions has none either. */
  lemma DistintasPrefijo<T>(s: seq<T>, k: nat)
    requires Distintas(s) && k <= |s|
    ensures Distintas(s[..k])
  {
  }

  /** In a sequence without repetitions, different indices hold different elements. */
  lemma DistintasDistintos<T>(s: seq<T>, a: nat, b: nat)
    requires Distintas(s) && a < |s| && b < |s| && a != b
    ensures s[a] != s[b]
  {
  }

  /** `List.remove(Object)`: drop the first occurrence of `x`, if any. */
  function RemoverPrimera<T(==)>(s: seq<T>, x: T): (r: seq<T>)
    ensures x in s ==> |r| == |s| - 1 && multiset(r) + multiset{x} == multiset(s)
    ensures x !in s ==> r == s
    ensures forall y :: y in r ==> y in s
  {
    if s == [] then []
    else
      assert s == [s[0]] + s[1..];
      if s[0] == x then s[1..]
      else [s[0]] + RemoverPrimera(s[1..], x)
  }

  /** When position `k` holds the first occurrence of its element, removing
      that element cuts exactly position `k` out, wherever it lies. */
  lemma {:induction false} RemoverPrimeraEn<T>(s: seq<T>, k: nat)
    requires k < |s| && s[k] !in s[..k]
    ensures RemoverPrimera(s, s[k]) == s[..k] + s[k + 1..]
  {
    assert s == [s[0]] + s[1..];
    if k > 0 {
      assert s[1..][..k - 1] == s[..k][1..];
      RemoverPrimeraEn(s[1..], k - 1);
      assert s[..k] == [s[0]] + s[1..][..k - 1];
    }
  }

  /** Sequences that are permutations of each other have the same members. */
  lemma MismosElementos<T>(s: seq<T>, t: seq<T>)
    requires multiset(s) == multiset(t)
    ensures forall x :: x in s <==> x in t
  {
    forall x ensures x in s <==> x in t {
      assert x in s <==> x in multiset(s);
      assert x in t <==> x in multiset(t);
    }
  }

  /** Adding the same element to two multisets keeps them equal or unequal. */
  lemma CancelarMultiset<T>(a: multiset<T>, b: multiset<T>, x: T)
    requires a + multiset{x} == b + multiset{x}
    ensures a == b
  {
    forall y ensures a[y] == b[y] {
      assert (a + multiset{x})[y] == (b + multiset{x})[y];
    }
  }

  /** Cancelling a common part: if `a` with `parte` is `b` with `resto`, and
      `parte` is `resto` plus `x`, then `a` plus `x` is `b`. */
  lemma CancelarParte<T>(a: multiset<T>, b: multiset<T>, parte: multiset<T>, resto: multiset<T>, x: T)
    requires a + parte == b + resto && resto + multiset{x} == parte
    ensures a + multiset{x} == b
  {
    forall y ensures (a + multiset{x})[y] == b[y] {
      assert (a + parte)[y] == (b + resto)[y];
      assert (resto + multiset{x})[y] == parte[y];
    }
  }

  /** Removing one more element after a batch removes the batch plus it. */
  lemma QuitarUnoMas<T>(resto: multiset<T>, medio: multiset<T>, todo: multiset<T>,
                        lote: multiset<T>, y: T)
    requires resto + multiset{y} == medio && medio + lote == todo
    ensures resto + (lote + multiset{y}) == todo
  {
    forall z ensures (resto + (lote + multiset{y}))[z] == todo[z] {
      assert (resto + multiset{y})[z] == medio[z];
      assert (medio + lote)[z] == todo[z];
    }
  }

  /** What is left after taking out part of a bag still holds whatever else
      the bag had room for. */
  lemma QuedaEnResto<T>(resto: multiset<T>, lote: multiset<T>, todo: multiset<T>, y: T)
    requires resto + lote == todo && lote + multiset{y} <= todo
    ensures y in resto
  {
    assert (resto + lote)[y] == todo[y];
    assert (lote + multiset{y})[y] <= todo[y];
  }

  /** Part of a sub-bag is a sub-bag. */
  lemma SinUno<T>(lote: multiset<T>, todo: multiset<T>, y: T)
    requires lote + multiset{y} <= todo
    ensures lote <= todo
  {
    forall z ensures lote[z] <= todo[z] {
      assert (lote + multiset{y})[z] <= todo[z];
    }
  }

  /** Joining two duplicate-free sequences with no common element keeps them duplicate-free. */
  lemma DistintasConcat<T>(a: seq<T>, b: seq<T>)
    requires Distintas(a) && Distintas(b)
    requires forall x :: x in a ==> x !in b
    ensures Distintas(a + b)
  {
    forall i, j | 0 <= i < j < |a + b|
      ensures (a + b)[i] != (a + b)[j]
    {
      if j >= |a| && i < |a| {
        assert (a + b)[i] in a && (a + b)[j] in b;
      }
    }
  }

  /** A sequence is duplicate-free exactly when no element occurs twice in its multiset. */
  lemma {:induction false} DistintasMultiset<T>(s: seq<T>)
    ensures Distintas(s) <==> forall x :: multiset(s)[x] <= 1
  {
    if s != [] {
      var r := s[1..];
      assert s == [s[0]] + r;
      DistintasMultiset(r);
      if Distintas(s) {
        assert Distintas(r) by {
          forall i, j | 0 <= i < j < |r| ensures r[i] != r[j] {
            assert r[i] == s[i + 1] && r[j] == s[j + 1];
          }
        }
        assert s[0] !in r by {
          forall k | 0 <= k < |r| ensures r[k] != s[0] {
            assert r[k] == s[k + 1];
          }
        }
      }
      if forall x :: multiset(s)[x] <= 1 {
        forall x ensures multiset(r)[x] <= 1 {
          assert multiset(s)[x] == multiset(r)[x] + (if x == s[0] then 1 else 0);
        }
        assert multiset(r)[s[0]] == 0 by {
          assert multiset(s)[s[0]] == multiset(r)[s[0]] + 1;
        }
        forall i, j | 0 <= i < j < |s| ensures s[i] != s[j] {
          if i == 0 {
            assert s[j] == r[j - 1];
          } else {
            assert s[i] == r[i - 1] && s[j] == r[j - 1];
          }
        }
      }
    }
  }

  /** A permutation of a duplicate-free sequence is duplicate-free. */
  lemma DistintasPermutacion<T>(s: seq<T>, t: seq<T>)
    requires multiset(s) == multiset(t) && Distintas(s)
    ensures Distintas(t)
  {
    DistintasMultiset(s);
    DistintasMultiset(t);
  }

  function Min(a: int, b: int): int { if a <= b then a else b }

  function Max(a: int, b: int): int { if a >= b then a else b }
}
