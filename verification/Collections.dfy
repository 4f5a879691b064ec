/** Small facts about sets and options used by the other modules. */
module Collections {

  datatype Option<+T> = None | Some(value: T)

  ghost function Pick<T>(s: set<T>): (x: T)
    requires s != {}
    ensures x in s
  {
    var x :| x in s; x
  }

  method TakeOne<T(==)>(s: set<T>) returns (x: T)
    requires s != {}
    ensures x in s
  {
    x :| x in s;
  }

  /** COALESCE(MAX(...), 0) over a set of ids. */
  ghost function MaxOrZero(ids: set<int>): (m: int)
    ensures ids == {} ==> m == 0
    ensures ids != {} ==> m in ids
    ensures forall i | i in ids :: i <= m
  {
    if ids == {} then 0
    else
      var i := Pick(ids);
      var rest := ids - {i};
      if rest == {} then assert ids == {i}; i
      else
        var m := MaxOrZero(rest);
        assert ids == rest + {i};
        if i > m then i else m
  }

  // ---------- Sums over finite sets ----------

  ghost function Sum<T>(f: T -> int, s: set<T>): int {
    if s == {} then 0
    else
      var x := Pick(s);
      f(x) + Sum(f, s - {x})
  }

  /** The sum does not depend on the order of summation. */
  lemma {:induction false} SumRemove<T>(f: T -> int, s: set<T>, x: T)
    requires x in s
    ensures Sum(f, s) == f(x) + Sum(f, s - {x})
    decreases s
  {
    var y := Pick(s);
    if y != x {
      SumRemove(f, s - {y}, x);
      SumRemove(f, s - {x}, y);
      assert (s - {x}) - {y} == (s - {y}) - {x};
    }
  }

  lemma {:induction false} SumDisjoint<T>(f: T -> int, a: set<T>, b: set<T>)
    requires a !! b
    ensures Sum(f, a + b) == Sum(f, a) + Sum(f, b)
    decreases a
  {
    if a == {} {
      assert a + b == b;
    } else {
      var x := Pick(a);
      SumRemove(f, a + b, x);
      assert (a + b) - {x} == (a - {x}) + b;
      SumDisjoint(f, a - {x}, b);
    }
  }

  lemma {:induction false} SumSame<T>(f: T -> int, g: T -> int, s: set<T>)
    requires forall x | x in s :: f(x) == g(x)
    ensures Sum(f, s) == Sum(g, s)
    decreases s
  {
    if s != {} {
      SumSame(f, g, s - {Pick(s)});
    }
  }

  lemma {:induction false} SumAdd<T>(f: T -> int, g: T -> int, h: T -> int, s: set<T>)
    requires forall x | x in s :: h(x) == f(x) + g(x)
    ensures Sum(h, s) == Sum(f, s) + Sum(g, s)
    decreases s
  {
    if s != {} {
      SumAdd(f, g, h, s - {Pick(s)});
    }
  }

  lemma {:induction false} SumConst<T>(f: T -> int, c: int, s: set<T>)
    requires forall x | x in s :: f(x) == c
    ensures Sum(f, s) == |s| * c
    decreases s
  {
    if s != {} {
      var x := Pick(s);
      SumConst(f, c, s - {x});
      assert |s| == |s - {x}| + 1;
      assert (|s - {x}| + 1) * c == |s - {x}| * c + c;
    }
  }

  /** A sum of non-negative terms is non-negative, and zero only if every term is. */
  lemma {:induction false} SumZeroIff<T>(f: T -> int, s: set<T>)
    requires forall x | x in s :: f(x) >= 0
    ensures Sum(f, s) >= 0
    ensures Sum(f, s) == 0 <==> forall x | x in s :: f(x) == 0
    decreases s
  {
    if s != {} {
      SumZeroIff(f, s - {Pick(s)});
    }
  }

  ghost function Group<T, K>(s: set<T>, key: T -> K, k: K): set<T> {
    set x | x in s && key(x) == k
  }

  ghost function Keys<T, K>(s: set<T>, key: T -> K): set<K> {
    set x | x in s :: key(x)
  }

  /** Summing group by group is summing. */
  lemma {:induction false} SumByGroups<T, K>(f: T -> int, s: set<T>, key: T -> K, keys: set<K>, g: K -> int)
    requires forall x | x in s :: key(x) in keys
    requires forall k | k in keys :: g(k) == Sum(f, Group(s, key, k))
    ensures Sum(g, keys) == Sum(f, s)
    decreases keys
  {
    if keys == {} {
      assert s == {};
    } else {
      var k := Pick(keys);
      var here := Group(s, key, k);
      var rest := s - here;
      forall j | j in keys - {k}
        ensures g(j) == Sum(f, Group(rest, key, j))
      {
        assert Group(rest, key, j) == Group(s, key, j);
      }
      SumByGroups(f, rest, key, keys - {k}, g);
      SumDisjoint(f, here, rest);
      assert here + rest == s;
    }
  }

  lemma KeyWitness<T, K>(s: set<T>, key: T -> K, k: K) returns (x: T)
    requires k in Keys(s, key)
    ensures x in s && key(x) == k && x in Group(s, key, k)
  {
    x :| x in s && key(x) == k;
  }

  /** Terms that vanish outside a part need not be summed there. */
  lemma SumSupport<T>(f: T -> int, s: set<T>, part: set<T>)
    requires part <= s && forall x | x in s - part :: f(x) == 0
    ensures Sum(f, s) == Sum(f, part)
  {
    SumConst(f, 0, s - part);
    SumDisjoint(f, part, s - part);
    assert part + (s - part) == s;
  }

  // ---------- Sizes ----------

  lemma {:induction false} SubsetSize<T>(a: set<T>, b: set<T>)
    requires a <= b
    ensures |a| <= |b|
    decreases a
  {
    if a != {} {
      var x := Pick(a);
      SubsetSize(a - {x}, b - {x});
    }
  }

  predicate NoDuplicates<T(==)>(s: seq<T>) {
    forall i, j | 0 <= i < j < |s| :: s[i] != s[j]
  }

  function Elements<T>(s: seq<T>): set<T> {
    set x | x in s
  }

  lemma {:induction false} NoDuplicatesSize<T>(s: seq<T>)
    requires NoDuplicates(s)
    ensures |Elements(s)| == |s|
  {
    if s != [] {
      var front := s[..|s| - 1];
      var last := s[|s| - 1];
      NoDuplicatesSize(front);
      assert s == front + [last];
      assert Elements(s) == Elements(front) + {last};
      assert last !in front;
    }
  }
}
