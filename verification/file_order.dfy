/**
 * The order in which a run's event files are kept and read: lexicographic on their names.
 * All event files of a run live in the run's directory, so comparing their paths component by
 * component comes down to comparing their last components.
 */
module FileOrder {

  /** `a` sorts strictly before `b`. */
  predicate Below(a: string, b: string)
    decreases |a|
  {
    if a == [] then b != []
    else b != [] && (a[0] < b[0] || (a[0] == b[0] && Below(a[1..], b[1..])))
  }

  lemma {:induction false} BelowIrreflexive(a: string)
    ensures !Below(a, a)
    decreases |a|
  {
    if a != [] {
      BelowIrreflexive(a[1..]);
    }
  }

  lemma {:induction false} BelowTransitive(a: string, b: string, c: string)
    requires Below(a, b) && Below(b, c)
    ensures Below(a, c)
    decreases |a|
  {
    if a != [] && a[0] == b[0] && b[0] == c[0] {
      BelowTransitive(a[1..], b[1..], c[1..]);
    }
  }

  lemma {:induction false} BelowTotal(a: string, b: string)
    ensures a == b || Below(a, b) || Below(b, a)
    decreases |a|
  {
    if a != [] && b != [] && a[0] == b[0] {
      BelowTotal(a[1..], b[1..]);
      if a[1..] == b[1..] {
        assert a == [a[0]] + a[1..] && b == [b[0]] + b[1..];
      }
    }
  }

  /** `m` is the first name of `s`. */
  predicate IsLeast(m: string, s: set<string>)
  {
    m in s && forall x :: x in s && x != m ==> Below(m, x)
  }

  /** Every finite non-empty set of names has a first element. */
  lemma {:induction false} LeastExists(s: set<string>)
    requires s != {}
    ensures exists m :: IsLeast(m, s)
    decreases |s|
  {
    var x :| x in s;
    var rest := s - {x};
    if rest == {} {
      assert s == {x};
      assert IsLeast(x, s);
    } else {
      LeastExists(rest);
      var m :| IsLeast(m, rest);
      BelowTotal(x, m);
      if Below(x, m) {
        forall y | y in s && y != x
          ensures Below(x, y)
        {
          if y != m {
            BelowTransitive(x, m, y);
          }
        }
        assert IsLeast(x, s);
      } else {
        assert IsLeast(m, s);
      }
    }
  }

  /** The names of `ks` are strictly ascending. */
  ghost predicate Ascending(ks: seq<string>)
  {
    forall i, j :: 0 <= i < j < |ks| ==> Below(ks[i], ks[j])
  }

  lemma HeadIn(b: seq<string>)
    ensures b == [] || b[0] in b
  {
  }

  /** A set of names has exactly one strictly ascending enumeration. */
  lemma {:induction false} AscendingUnique(a: seq<string>, b: seq<string>)
    requires Ascending(a) && Ascending(b)
    requires forall k :: k in a <==> k in b
    ensures a == b
    decreases |a|
  {
    if a == [] {
      HeadIn(b);
    } else {
      assert a[0] in a;
      assert b != [];
      if a[0] != b[0] {
        assert b[0] in a;
        var i :| 0 <= i < |a| && a[i] == b[0];
        assert a[0] in b;
        var j :| 0 <= j < |b| && b[j] == a[0];
        BelowTransitive(a[0], b[0], a[0]);
        BelowIrreflexive(a[0]);
      }
      forall k
        ensures k in a[1..] <==> k in b[1..]
      {
        if k in a[1..] {
          var i :| 1 <= i < |a| && a[i] == k;
          BelowIrreflexive(k);
          assert k in b && k != b[0];
          var j :| 0 <= j < |b| && b[j] == k;
          assert b[1..][j - 1] == k;
        }
        if k in b[1..] {
          var j :| 1 <= j < |b| && b[j] == k;
          BelowIrreflexive(k);
          assert k in a && k != a[0];
          var i :| 0 <= i < |a| && a[i] == k;
          assert a[1..][i - 1] == k;
        }
      }
      AscendingUnique(a[1..], b[1..]);
      assert a == [a[0]] + a[1..] && b == [b[0]] + b[1..];
    }
  }

  /** `order` lists names that all sort before every name of `rest`. */
  ghost predicate AllBelow(order: seq<string>, rest: set<string>)
  {
    forall i, k :: 0 <= i < |order| && k in rest ==> Below(order[i], k)
  }

  /** `order` lists the names of `s` in strictly ascending order. */
  ghost predicate Enumerates(order: seq<string>, s: set<string>)
  {
    Ascending(order) && forall k :: k in order <==> k in s
  }

  /** Taking the first of the remaining names extends an ascending enumeration. */
  lemma AscendingSnoc(order: seq<string>, done: set<string>, rest: set<string>, m: string)
    requires Enumerates(order, done) && AllBelow(order, rest) && IsLeast(m, rest)
    ensures Enumerates(order + [m], done + {m}) && AllBelow(order + [m], rest - {m})
  {
  }

  /**
   * Partway through visiting the names of `keys` in ascending order: `order` lists the names
   * visited so far, and every name still in `remaining` sorts after all of them.
   */
  ghost predicate VisitedUpTo(order: seq<string>, remaining: set<string>, keys: set<string>)
  {
    remaining <= keys && Enumerates(order, keys - remaining) && AllBelow(order, remaining)
  }

  /** Visiting the first remaining name keeps the visit in ascending order. */
  lemma VisitNext(order: seq<string>, remaining: set<string>, keys: set<string>, m: string)
    requires VisitedUpTo(order, remaining, keys) && IsLeast(m, remaining)
    ensures VisitedUpTo(order + [m], remaining - {m}, keys)
  {
    AscendingSnoc(order, keys - remaining, remaining, m);
    assert (keys - remaining) + {m} == keys - (remaining - {m});
  }

  /** The names of `s` in ascending order: the order in which an ordered map visits its keys. */
  ghost function SortedKeys(s: set<string>): (r: seq<string>)
    ensures Ascending(r)
    ensures forall k :: k in r <==> k in s
    decreases |s|
  {
    if s == {} then []
    else
      LeastExists(s);
      var m :| IsLeast(m, s);
      var rest := SortedKeys(s - {m});
      assert forall i :: 0 <= i < |rest| ==> rest[i] in s - {m};
      [m] + rest
  }

  /** A visit that always takes the first remaining name ends up visiting the keys in `SortedKeys` order. */
  lemma VisitedAll(order: seq<string>, keys: set<string>)
    requires VisitedUpTo(order, {}, keys)
    ensures order == SortedKeys(keys)
  {
    AscendingUnique(order, SortedKeys(keys));
  }
}
