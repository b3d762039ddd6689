/** Gateway keys sorted by namespace, then name, as `buildInferencePoolStatus`
    sorts the gateways it reports on. The keys come out of a Go map, in no
    particular order; sorting makes the output depend on the set of keys
    alone. */
module GatewayOrder {
  import opened Common
  import opened Text

  /** The comparison passed to `sort.Slice`. */
  predicate KeyLess(a: NamespacedName, b: NamespacedName) {
    if a.namespace != b.namespace then StrLess(a.namespace, b.namespace)
    else StrLess(a.name, b.name)
  }

  lemma KeyLessIrreflexive(a: NamespacedName)
    ensures !KeyLess(a, a)
  {
    StrLessIrreflexive(a.name);
  }

  lemma KeyLessTransitive(a: NamespacedName, b: NamespacedName, c: NamespacedName)
    requires KeyLess(a, b) && KeyLess(b, c)
    ensures KeyLess(a, c)
  {
    if a.namespace != b.namespace && b.namespace != c.namespace {
      StrLessTransitive(a.namespace, b.namespace, c.namespace);
      if a.namespace == c.namespace {
        StrLessAsymmetric(a.namespace, b.namespace);
      }
    } else if a.namespace == b.namespace && b.namespace == c.namespace {
      StrLessTransitive(a.name, b.name, c.name);
    }
  }

  lemma KeyLessTotal(a: NamespacedName, b: NamespacedName)
    requires a != b
    ensures KeyLess(a, b) || KeyLess(b, a)
  {
    if a.namespace != b.namespace {
      StrLessTotal(a.namespace, b.namespace);
    } else {
      StrLessTotal(a.name, b.name);
    }
  }

  lemma KeyLessAsymmetric(a: NamespacedName, b: NamespacedName)
    requires KeyLess(a, b)
    ensures !KeyLess(b, a)
  {
    if KeyLess(b, a) {
      KeyLessTransitive(a, b, a);
      KeyLessIrreflexive(a);
    }
  }

  /** Sorted with no key twice. */
  predicate StrictlySorted(s: seq<NamespacedName>) {
    forall i, j :: 0 <= i < j < |s| ==> KeyLess(s[i], s[j])
  }

  lemma BelowAll(x: NamespacedName, s: seq<NamespacedName>)
    requires StrictlySorted(s) && |s| > 0 && KeyLess(x, s[0])
    ensures forall j :: 0 <= j < |s| ==> KeyLess(x, s[j])
  {
    forall j | 0 < j < |s| ensures KeyLess(x, s[j]) {
      KeyLessTransitive(x, s[0], s[j]);
    }
  }

  /** Inserts a key into a strictly sorted list unless it is already there. */
  function Insert(s: seq<NamespacedName>, x: NamespacedName): (r: seq<NamespacedName>)
    requires StrictlySorted(s)
    ensures StrictlySorted(r)
    ensures forall y :: y in r <==> y in s || y == x
    decreases |s|
  {
    if |s| == 0 then [x]
    else if x == s[0] then s
    else if KeyLess(x, s[0]) then
      BelowAll(x, s);
      [x] + s
    else
      KeyLessTotal(x, s[0]);
      var rest := Insert(s[1..], x);
      assert forall j :: 0 <= j < |rest| ==> KeyLess(s[0], rest[j]) by {
        forall j | 0 <= j < |rest| ensures KeyLess(s[0], rest[j]) {
          assert rest[j] in s[1..] || rest[j] == x;
        }
      }
      [s[0]] + rest
  }

  /** The distinct keys of a list, sorted. */
  function SortDistinct(xs: seq<NamespacedName>): (r: seq<NamespacedName>)
    ensures StrictlySorted(r)
    ensures forall y :: y in r <==> y in xs
    decreases |xs|
  {
    if |xs| == 0 then []
    else Insert(SortDistinct(xs[..|xs| - 1]), xs[|xs| - 1])
  }

  /** A strictly sorted list is determined by its elements: sorting the keys
      of a map gives the same list whichever order the map yields them in. */
  lemma {:induction false} SortedUnique(a: seq<NamespacedName>, b: seq<NamespacedName>)
    requires StrictlySorted(a) && StrictlySorted(b)
    requires forall y :: y in a <==> y in b
    ensures a == b
    decreases |a|
  {
    if |a| > 0 {
      assert a[0] in a;
    }
    if |b| > 0 {
      assert b[0] in b;
    }
    if |a| > 0 && |b| > 0 {
      assert a[0] in b;
      assert b[0] in a;
      var i :| 0 <= i < |a| && a[i] == b[0];
      var j :| 0 <= j < |b| && b[j] == a[0];
      if i > 0 && j > 0 {
        KeyLessAsymmetric(a[0], a[i]);
        assert false;
      } else if i > 0 {
        KeyLessIrreflexive(a[0]);
        assert false;
      } else if j > 0 {
        KeyLessIrreflexive(b[0]);
        assert false;
      }
      assert a[0] == b[0];
      forall y ensures y in a[1..] <==> y in b[1..] {
        if y in a[1..] {
          var k :| 1 <= k < |a| && a[k] == y;
          KeyLessIrreflexive(a[0]);
          assert y in a && y in b;
          var m :| 0 <= m < |b| && b[m] == y;
          assert m != 0;
          assert b[1..][m - 1] == y;
        }
        if y in b[1..] {
          var k :| 1 <= k < |b| && b[k] == y;
          KeyLessIrreflexive(b[0]);
          assert y in b && y in a;
          var m :| 0 <= m < |a| && a[m] == y;
          assert m != 0;
          assert a[1..][m - 1] == y;
        }
      }
      SortedUnique(a[1..], b[1..]);
      assert a == [a[0]] + a[1..];
      assert b == [b[0]] + b[1..];
    }
  }
}
