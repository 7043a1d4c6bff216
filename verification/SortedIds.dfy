/** Member ids in the order `ORDER BY discord_id` lists them. */
module SortedIds {
  /** Lexicographic order by character code. */
  predicate Le(a: string, b: string) {
    a == [] || (b != [] && (a[0] < b[0] || (a[0] == b[0] && Le(a[1..], b[1..]))))
  }

  lemma {:induction false} LeTotal(a: string, b: string)
    ensures Le(a, b) || Le(b, a)
  {
    if a != [] && b != [] {
      LeTotal(a[1..], b[1..]);
    }
  }

  lemma {:induction false} LeAntisymmetric(a: string, b: string)
    requires Le(a, b) && Le(b, a)
    ensures a == b
  {
    if a != [] {
      LeAntisymmetric(a[1..], b[1..]);
      assert a == [a[0]] + a[1..] && b == [b[0]] + b[1..];
    }
  }

  lemma {:induction false} LeTransitive(a: string, b: string, c: string)
    requires Le(a, b) && Le(b, c)
    ensures Le(a, c)
  {
    if a != [] && a[0] == b[0] && b[0] == c[0] {
      LeTransitive(a[1..], b[1..], c[1..]);
    }
  }

  /** The order of a dictionary: a prefix comes first, else the smaller character where the two first differ. */
  lemma {:induction false} LeIsDictionaryOrder(a: string, b: string)
    ensures Le(a, b) <==> a <= b || exists k :: 0 <= k < |a| && k < |b| && a[..k] == b[..k] && a[k] < b[k]
  {
    if a != [] && b != [] && a[0] == b[0] {
      var x, y := a[1..], b[1..];
      LeIsDictionaryOrder(x, y);
      assert a == [a[0]] + x && b == [b[0]] + y;
      if k :| 0 <= k < |x| && k < |y| && x[..k] == y[..k] && x[k] < y[k] {
        assert a[..k + 1] == [a[0]] + x[..k] && b[..k + 1] == [b[0]] + y[..k];
        assert a[k + 1] < b[k + 1];
      }
      if k :| 0 <= k < |a| && k < |b| && a[..k] == b[..k] && a[k] < b[k] {
        assert x[..k - 1] == a[..k][1..] && y[..k - 1] == b[..k][1..];
        assert x[k - 1] < y[k - 1];
      }
    } else if a != [] && b != [] && a[0] < b[0] {
      assert a[..0] == b[..0];
    }
  }

  // --- listings -----------------------------------------------------------------------

  predicate Sorted(ids: seq<string>) {
    forall i, j :: 0 <= i < j < |ids| ==> ids[i] != ids[j] && Le(ids[i], ids[j])
  }

  function Members(ids: seq<string>): set<string> {
    set x | x in ids
  }

  /** `ids` lists `s` in order, without repetition. */
  predicate IsListing(ids: seq<string>, s: set<string>) {
    Sorted(ids) && Members(ids) == s
  }

  /** A set has one listing, so comparing ordered lists compares sets. */
  lemma {:induction false} ListingIsUnique(a: seq<string>, b: seq<string>)
    requires Sorted(a) && Sorted(b) && Members(a) == Members(b)
    ensures a == b
  {
    if a == [] || b == [] {
      NonEmptyHasMembers(a);
      NonEmptyHasMembers(b);
    } else {
      HeadIsLeast(a, b);
      HeadIsLeast(b, a);
      LeAntisymmetric(a[0], b[0]);
      TailMembers(a);
      TailMembers(b);
      ListingIsUnique(a[1..], b[1..]);
      assert a == [a[0]] + a[1..] && b == [b[0]] + b[1..];
    }
  }

  lemma NonEmptyHasMembers(a: seq<string>)
    ensures a == [] <==> Members(a) == {}
  {
    if a != [] {
      assert a[0] in Members(a);
    }
  }

  lemma HeadIsLeast(a: seq<string>, b: seq<string>)
    requires a != [] && b != [] && Sorted(a) && Members(a) == Members(b)
    ensures Le(a[0], b[0])
  {
    assert b[0] in Members(a);
    LeTotal(a[0], a[0]);
  }

  lemma TailMembers(a: seq<string>)
    requires a != [] && Sorted(a)
    ensures Sorted(a[1..]) && Members(a[1..]) == Members(a) - {a[0]}
  {
    forall x
      ensures x in a[1..] <==> x in a && x != a[0]
    {
    }
  }

  function Insert(x: string, ids: seq<string>): seq<string> {
    if ids == [] then [x]
    else if x == ids[0] then ids
    else if Le(x, ids[0]) then [x] + ids
    else [ids[0]] + Insert(x, ids[1..])
  }

  lemma {:induction false} InsertMembers(x: string, ids: seq<string>)
    ensures Members(Insert(x, ids)) == Members(ids) + {x}
  {
    if ids != [] {
      InsertMembers(x, ids[1..]);
      assert forall y :: y in ids <==> y == ids[0] || y in ids[1..];
      assert forall y :: y in ids[1..] <==> y in Members(ids[1..]);
      assert forall y :: y in Insert(x, ids[1..]) <==> y in Members(Insert(x, ids[1..]));
    }
  }

  lemma {:induction false} InsertSorts(x: string, ids: seq<string>)
    requires Sorted(ids)
    ensures Sorted(Insert(x, ids))
  {
    if ids != [] && x != ids[0] {
      if Le(x, ids[0]) {
        forall j | 0 <= j < |ids|
          ensures x != ids[j] && Le(x, ids[j])
        {
          if j > 0 {
            LeTransitive(x, ids[0], ids[j]);
            if x == ids[j] {
              LeAntisymmetric(x, ids[0]);
            }
          }
        }
      } else {
        InsertSorts(x, ids[1..]);
        InsertMembers(x, ids[1..]);
        LeTotal(x, ids[0]);
        var rest := Insert(x, ids[1..]);
        forall j | 0 <= j < |rest|
          ensures ids[0] != rest[j] && Le(ids[0], rest[j])
        {
          assert rest[j] in Members(rest);
          if rest[j] != x {
            assert rest[j] in ids[1..];
          }
        }
      }
    }
  }

  /** The rows of a query, put in order one at a time, in whatever order they are found. */
  method ListInOrder(s: set<string>) returns (ids: seq<string>)
    ensures IsListing(ids, s)
  {
    ids := [];
    var left := s;
    while left != {}
      invariant left <= s && Sorted(ids) && Members(ids) == s - left
      decreases left
    {
      var x :| x in left;
      InsertSorts(x, ids);
      InsertMembers(x, ids);
      ids := Insert(x, ids);
      left := left - {x};
    }
  }

  ghost function Listing(s: set<string>): (ids: seq<string>)
    ensures IsListing(ids, s)
  {
    if s == {} then []
    else
      var x :| x in s;
      InsertSorts(x, Listing(s - {x}));
      InsertMembers(x, Listing(s - {x}));
      Insert(x, Listing(s - {x}))
  }

  /** `LIMIT n`. */
  function Take<T>(items: seq<T>, n: nat): (r: seq<T>)
    ensures r <= items && |r| <= n && (|r| == n || r == items)
  {
    if n <= |items| then items[..n] else items
  }

  /** The members of `s` that come before `u`. */
  ghost function Earlier(s: set<string>, u: string): set<string> {
    set x | x in s && x != u && Le(x, u)
  }

  /** `ids` lists, in order, the members of `s` that fewer than `n` others come before. */
  ghost predicate FirstInOrder(ids: seq<string>, s: set<string>, n: nat) {
    && Sorted(ids)
    && |ids| <= n
    && forall u :: u in ids <==> u in s && |Earlier(s, u)| < n
  }

  lemma {:induction false} SortedHasItsLength(ids: seq<string>)
    requires Sorted(ids)
    ensures |Members(ids)| == |ids|
  {
    if ids == [] {
      assert Members(ids) == {};
    } else {
      TailMembers(ids);
      SortedHasItsLength(ids[1..]);
      assert ids[0] in Members(ids);
    }
  }

  /** The i-th id of a listing has exactly i others before it. */
  lemma EarlierInListing(ids: seq<string>, i: nat)
    requires Sorted(ids) && i < |ids|
    ensures |Earlier(Members(ids), ids[i])| == i
  {
    forall x | x in Earlier(Members(ids), ids[i])
      ensures x in ids[..i]
    {
      var j :| 0 <= j < |ids| && ids[j] == x;
      if j > i {
        LeAntisymmetric(ids[i], ids[j]);
      }
      assert ids[..i][j] == x;
    }
    forall x | x in ids[..i]
      ensures x in Earlier(Members(ids), ids[i])
    {
      var j :| 0 <= j < i && ids[j] == x;
    }
    assert Earlier(Members(ids), ids[i]) == Members(ids[..i]);
    SortedHasItsLength(ids[..i]);
  }

  /** `ORDER BY ... LIMIT n` yields the first n. */
  lemma TakeIsFirst(s: set<string>, n: nat)
    ensures FirstInOrder(Take(Listing(s), n), s, n)
  {
    hide Earlier, Le;
    var ids := Listing(s);
    forall u
      ensures u in Take(ids, n) <==> u in s && |Earlier(s, u)| < n
    {
      if u in s {
        assert u in Members(ids);
        var i :| 0 <= i < |ids| && ids[i] == u;
        EarlierInListing(ids, i);
        if i < |Take(ids, n)| {
          assert Take(ids, n)[i] == u;
        }
        if j :| 0 <= j < |Take(ids, n)| && Take(ids, n)[j] == u {
          assert ids[j] == ids[i];
        }
      } else {
        assert u !in Members(ids);
      }
    }
  }

  lemma TakeOfListing(ids: seq<string>, n: nat)
    requires Sorted(ids)
    ensures Sorted(Take(ids, n)) && Members(Take(ids, n)) <= Members(ids)
    ensures |ids| <= n ==> Take(ids, n) == ids
  {
  }
}
