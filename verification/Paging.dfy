/** Order on ids and listing keys, sorted listings, and keyset paging over them. */
module Paging {
  import opened Types

  // Byte-wise text comparison, as Go compares strings.
  predicate Less(a: string, b: string) {
    if b == [] then false
    else if a == [] then true
    else if a[0] != b[0] then a[0] < b[0]
    else Less(a[1..], b[1..])
  }

  lemma {:induction false} LessIrreflexive(a: string)
    ensures !Less(a, a)
  {
    if a != [] {
      LessIrreflexive(a[1..]);
    }
  }

  lemma {:induction false} LessTransitive(a: string, b: string, c: string)
    requires Less(a, b) && Less(b, c)
    ensures Less(a, c)
  {
    if a != [] && a[0] == b[0] == c[0] {
      LessTransitive(a[1..], b[1..], c[1..]);
    }
  }

  lemma {:induction false} LessTotal(a: string, b: string)
    ensures Less(a, b) || Less(b, a) || a == b
  {
    if a != [] && b != [] && a[0] == b[0] {
      LessTotal(a[1..], b[1..]);
      assert a == [a[0]] + a[1..] && b == [b[0]] + b[1..];
    }
  }

  // A listing key: the instant a listing sorts by (0 where it sorts by id alone) and an id.
  datatype Key = Key(time: Time, id: Id)

  predicate Before(a: Key, b: Key) {
    a.time < b.time || (a.time == b.time && Less(a.id, b.id))
  }

  lemma BeforeIrreflexive(a: Key)
    ensures !Before(a, a)
  {
    LessIrreflexive(a.id);
  }

  lemma BeforeTransitive(a: Key, b: Key, c: Key)
    requires Before(a, b) && Before(b, c)
    ensures Before(a, c)
  {
    if a.time == b.time == c.time {
      LessTransitive(a.id, b.id, c.id);
    }
  }

  lemma BeforeTotal(a: Key, b: Key)
    ensures Before(a, b) || Before(b, a) || a == b
  {
    LessTotal(a.id, b.id);
  }

  ghost predicate StrictlyDescending(q: seq<Key>) {
    forall i, j | 0 <= i < j < |q| :: Before(q[j], q[i])
  }

  ghost predicate IsGreatest(keys: set<Key>, g: Key) {
    g in keys && forall k | k in keys :: k == g || Before(k, g)
  }

  lemma {:induction false} GreatestExists(keys: set<Key>)
    requires keys != {}
    ensures exists g :: IsGreatest(keys, g)
    decreases |keys|
  {
    var x :| x in keys;
    var rest := keys - {x};
    if rest == {} {
      assert keys == {x};
      assert IsGreatest(keys, x);
    } else {
      GreatestExists(rest);
      var y :| IsGreatest(rest, y);
      BeforeTotal(x, y);
      var g := if Before(x, y) then y else x;
      forall k | k in keys ensures k == g || Before(k, g) {
        if k != x && k != y && g == x {
          BeforeTransitive(k, y, x);
        }
      }
      assert IsGreatest(keys, g);
    }
  }

  ghost function Greatest(keys: set<Key>): (g: Key)
    requires keys != {}
    ensures IsGreatest(keys, g)
  {
    GreatestExists(keys);
    var g :| IsGreatest(keys, g);
    g
  }

  // The full sorted listing of a set of keys, greatest first.
  ghost function Descending(keys: set<Key>): seq<Key>
    decreases |keys|
  {
    if keys == {} then []
    else
      var g := Greatest(keys);
      [g] + Descending(keys - {g})
  }

  lemma ConsSorted(g: Key, rest: seq<Key>)
    requires StrictlyDescending(rest) && forall k | k in Elements(rest) :: Before(k, g)
    ensures StrictlyDescending([g] + rest)
    ensures Elements([g] + rest) == {g} + Elements(rest)
  {
    var q := [g] + rest;
    forall i, j | 0 <= i < j < |q| ensures Before(q[j], q[i]) {
      assert q[j] == rest[j - 1] && rest[j - 1] in Elements(rest);
      if i > 0 {
        assert Before(rest[j - 1], rest[i - 1]);
      }
    }
    assert forall k :: k in q <==> k == g || k in rest;
  }

  lemma {:induction false} DescendingIsSorted(keys: set<Key>)
    ensures StrictlyDescending(Descending(keys))
    ensures Elements(Descending(keys)) == keys
    ensures |Descending(keys)| == |keys|
    decreases |keys|
  {
    if keys != {} {
      var g := Greatest(keys);
      DescendingIsSorted(keys - {g});
      ConsSorted(g, Descending(keys - {g}));
      assert {g} + (keys - {g}) == keys;
    }
  }

  /** A listing has one sorted form: any strictly descending arrangement is it. */
  lemma {:induction false} DescendingUnique(q: seq<Key>, keys: set<Key>)
    requires StrictlyDescending(q) && Elements(q) == keys
    ensures q == Descending(keys)
    decreases |q|
  {
    if q == [] {
      assert keys == {};
    } else {
      assert q[0] in Elements(q);
      var g := Greatest(keys);
      assert g in q;
      var i :| 0 <= i < |q| && q[i] == g;
      if i != 0 {
        assert Before(g, q[0]);
        BeforeTransitive(g, q[0], g);
        BeforeIrreflexive(g);
        assert false;
      }
      var rest := q[1..];
      assert q == [g] + rest;
      forall k ensures k in rest <==> k in keys - {g} {
        if k in rest {
          var j :| 0 <= j < |rest| && rest[j] == k;
          assert Before(q[j + 1], q[0]);
          BeforeIrreflexive(g);
          assert k in Elements(q);
        } else if k in keys {
          assert k in q;
        }
      }
      assert Elements(rest) == keys - {g};
      assert StrictlyDescending(rest) by {
        forall i, j | 0 <= i < j < |rest| ensures Before(rest[j], rest[i]) {
          assert Before(q[j + 1], q[i + 1]);
        }
      }
      DescendingUnique(rest, keys - {g});
    }
  }

  // The keys a cursor leaves to be listed: strictly below it.
  ghost function Below(keys: set<Key>, after: Option<Key>): set<Key> {
    if after.None? then keys else set k | k in keys && Before(k, after.value)
  }

  ghost function Take(q: seq<Key>, n: nat): seq<Key> { if |q| > n then q[..n] else q }

  ghost function Page(keys: set<Key>, after: Option<Key>, limit: nat): seq<Key> {
    Take(Descending(Below(keys, after)), limit)
  }

  lemma BehindAnEntry(all: seq<Key>, keys: set<Key>, after: Option<Key>, i: nat)
    requires StrictlyDescending(all) && Elements(all) == Below(keys, after) && i < |all|
    ensures Elements(all[i + 1..]) == Below(keys, Some(all[i]))
  {
    var rest := all[i + 1..];
    assert all[i] in Elements(all);
    forall k | k in rest ensures k in Below(keys, Some(all[i])) {
      var j :| 0 <= j < |rest| && rest[j] == k;
      assert Before(all[i + 1 + j], all[i]);
      assert k in Elements(all);
    }
    forall k | k in Below(keys, Some(all[i])) ensures k in rest {
      if after.Some? {
        BeforeTransitive(k, all[i], after.value);
      }
      assert k in Elements(all);
      var j :| 0 <= j < |all| && all[j] == k;
      BeforeIrreflexive(k);
      if j < i {
        BeforeTransitive(k, all[i], all[j]);
      }
      assert rest[j - (i + 1)] == k;
    }
  }

  /** After a cursor standing on entry i, exactly the entries behind i remain. */
  lemma BelowIsSuffix(keys: set<Key>, after: Option<Key>, i: nat)
    requires i < |Descending(Below(keys, after))|
    ensures var all := Descending(Below(keys, after));
            Descending(Below(keys, Some(all[i]))) == all[i + 1..]
  {
    var all := Descending(Below(keys, after));
    DescendingIsSorted(Below(keys, after));
    BehindAnEntry(all, keys, after, i);
    var rest := all[i + 1..];
    forall a, b | 0 <= a < b < |rest| ensures Before(rest[b], rest[a]) {
      assert Before(all[i + 1 + b], all[i + 1 + a]);
    }
    DescendingUnique(rest, Below(keys, Some(all[i])));
  }

  // What a client collects by asking for pages until one comes back empty, each time
  // handing back the last entry it was given.
  ghost function Paged(keys: set<Key>, after: Option<Key>, limit: nat): seq<Key>
    requires 0 < limit
    decreases |Descending(Below(keys, after))|
  {
    var page := Page(keys, after, limit);
    if page == [] then []
    else
      BelowIsSuffix(keys, after, |page| - 1);
      page + Paged(keys, Some(page[|page| - 1]), limit)
  }

  /** Keyset paging is exact: for every positive limit the pages put together are the full
      sorted listing, nothing missed and nothing repeated. */
  lemma {:induction false} PagingIsExact(keys: set<Key>, after: Option<Key>, limit: nat)
    requires 0 < limit
    ensures Paged(keys, after, limit) == Descending(Below(keys, after))
    decreases |Descending(Below(keys, after))|
  {
    var page := Page(keys, after, limit);
    if page != [] {
      var all := Descending(Below(keys, after));
      BelowIsSuffix(keys, after, |page| - 1);
      PagingIsExact(keys, Some(page[|page| - 1]), limit);
      assert all == all[..|page|] + all[|page|..];
    }
  }

  // ---- sort.Slice over listing entries ----------------------------------------------

  ghost function KeysOf<T>(xs: seq<T>, key: T -> Key): set<Key> { set x | x in xs :: key(x) }

  function MapKeys<T>(xs: seq<T>, key: T -> Key): (r: seq<Key>)
    ensures |r| == |xs| && forall i | 0 <= i < |xs| :: r[i] == key(xs[i])
  {
    seq(|xs|, i requires 0 <= i < |xs| => key(xs[i]))
  }

  /** Sorting by descending key: the result carries the same entries, in the one sorted order. */
  method SortDescending<T>(xs: seq<T>, key: T -> Key) returns (ys: seq<T>)
    requires forall i, j | 0 <= i < j < |xs| :: key(xs[i]) != key(xs[j])
    ensures MapKeys(ys, key) == Descending(KeysOf(xs, key))
    ensures forall y | y in ys :: y in xs
  {
    ys := [];
    for n := 0 to |xs|
      invariant StrictlyDescending(MapKeys(ys, key))
      invariant Elements(MapKeys(ys, key)) == KeysOf(xs[..n], key)
      invariant forall y | y in ys :: y in xs[..n]
    {
      var x := xs[n];
      var p := 0;
      while p < |ys| && Before(key(x), key(ys[p]))
        invariant 0 <= p <= |ys|
        invariant forall i | 0 <= i < p :: Before(key(x), key(ys[i]))
      {
        p := p + 1;
      }
      InsertKeepsOrder(xs, n, ys, p, key);
      ys := ys[..p] + [x] + ys[p..];
    }
    assert xs[..|xs|] == xs;
    DescendingUnique(MapKeys(ys, key), KeysOf(xs, key));
  }

  /** The first cap entries of the sorted listing. */
  method SortAndCut<T>(xs: seq<T>, key: T -> Key, cap: nat) returns (ys: seq<T>)
    requires forall i, j | 0 <= i < j < |xs| :: key(xs[i]) != key(xs[j])
    ensures MapKeys(ys, key) == Take(Descending(KeysOf(xs, key)), cap)
    ensures forall y | y in ys :: y in xs
  {
    var sorted := SortDescending(xs, key);
    ys := if |sorted| > cap then sorted[..cap] else sorted;
    assert MapKeys(ys, key) == Take(MapKeys(sorted, key), cap);
  }

  lemma InsertKeepsOrder<T>(xs: seq<T>, n: nat, ys: seq<T>, p: nat, key: T -> Key)
    requires n < |xs| && p <= |ys|
    requires forall i, j | 0 <= i < j < |xs| :: key(xs[i]) != key(xs[j])
    requires StrictlyDescending(MapKeys(ys, key))
    requires Elements(MapKeys(ys, key)) == KeysOf(xs[..n], key)
    requires forall y | y in ys :: y in xs[..n]
    requires forall i | 0 <= i < p :: Before(key(xs[n]), key(ys[i]))
    requires p == |ys| || !Before(key(xs[n]), key(ys[p]))
    ensures var zs := ys[..p] + [xs[n]] + ys[p..];
            && StrictlyDescending(MapKeys(zs, key))
            && Elements(MapKeys(zs, key)) == KeysOf(xs[..n + 1], key)
            && forall z | z in zs :: z in xs[..n + 1]
  {
    var x := xs[n];
    var zs := ys[..p] + [x] + ys[p..];
    var ks := MapKeys(ys, key);
    forall i | p <= i < |ys| ensures Before(key(ys[i]), key(x)) {
      assert ys[p] in xs[..n];
      BeforeTotal(key(x), key(ys[p]));
      if i > p {
        assert Before(ks[i], ks[p]);
        BeforeTransitive(key(ys[i]), key(ys[p]), key(x));
      }
    }
    forall i, j | 0 <= i < j < |zs| ensures Before(MapKeys(zs, key)[j], MapKeys(zs, key)[i]) {
      var i' := if i <= p then i else i - 1;
      var j' := if j <= p then j else j - 1;
      if i != p && j != p {
        assert Before(ks[j'], ks[i']);
      }
    }
    assert xs[..n + 1] == xs[..n] + [x];
    forall k | k in MapKeys(zs, key) ensures k in KeysOf(xs[..n + 1], key) {
      var i :| 0 <= i < |zs| && key(zs[i]) == k;
      assert zs[i] in xs[..n + 1];
    }
    forall k | k in KeysOf(xs[..n + 1], key) ensures k in MapKeys(zs, key) {
      if k == key(x) {
        assert MapKeys(zs, key)[p] == k;
      } else {
        assert k in KeysOf(xs[..n], key);
        assert k in Elements(ks);
        var i :| 0 <= i < |ks| && ks[i] == k;
        assert MapKeys(zs, key)[if i < p then i else i + 1] == k;
      }
    }
    assert Elements(MapKeys(zs, key)) == KeysOf(xs[..n + 1], key);
  }
}
