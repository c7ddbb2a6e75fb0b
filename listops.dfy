/**
 * The list operations the factories and controllers use: LINQ's `Where`,
 * `Select`, `Skip` and `Take`, `List.Remove`, and the repository helper
 * `RemoveRange(List)`, whose source is not part of this model and which is
 * taken to remove each listed element once, as `List.Remove` does.
 */
module ListOps {

  /** LINQ `Where`: the elements satisfying `p`, in order. */
  function Filter<T(==,!new)>(s: seq<T>, p: T -> bool): (r: seq<T>)
    ensures |r| <= |s|
    ensures forall x :: x in r <==> x in s && p(x)
  {
    if |s| == 0 then []
    else
      assert s == [s[0]] + s[1..];
      if p(s[0]) then [s[0]] + Filter(s[1..], p) else Filter(s[1..], p)
  }

  /** The elements NOT satisfying `p`, in order. */
  function Reject<T(==,!new)>(s: seq<T>, p: T -> bool): (r: seq<T>)
    ensures |r| <= |s|
    ensures forall x :: x in r <==> x in s && !p(x)
  {
    if |s| == 0 then []
    else
      assert s == [s[0]] + s[1..];
      if p(s[0]) then Reject(s[1..], p) else [s[0]] + Reject(s[1..], p)
  }

  /**
   * Filtering keeps relative order: the kept elements of a concatenation
   * are the kept elements of each part, one after the other.
   */
  lemma {:induction false} FilterAppend<T(!new)>(a: seq<T>, b: seq<T>, p: T -> bool)
    ensures Filter(a + b, p) == Filter(a, p) + Filter(b, p)
  {
    if |a| == 0 {
      assert a + b == b;
    } else {
      var head := (if p(a[0]) then [a[0]] else []);
      calc {
        Filter(a + b, p);
        { assert (a + b)[0] == a[0]; assert (a + b)[1..] == a[1..] + b; }
        head + Filter(a[1..] + b, p);
        { FilterAppend(a[1..], b, p); }
        head + (Filter(a[1..], p) + Filter(b, p));
        (head + Filter(a[1..], p)) + Filter(b, p);
        Filter(a, p) + Filter(b, p);
      }
    }
  }

  /** The same for the rejected elements. */
  lemma {:induction false} RejectAppend<T(!new)>(a: seq<T>, b: seq<T>, p: T -> bool)
    ensures Reject(a + b, p) == Reject(a, p) + Reject(b, p)
  {
    if |a| == 0 {
      assert a + b == b;
    } else {
      var head := (if p(a[0]) then [] else [a[0]]);
      calc {
        Reject(a + b, p);
        { assert (a + b)[0] == a[0]; assert (a + b)[1..] == a[1..] + b; }
        head + Reject(a[1..] + b, p);
        { RejectAppend(a[1..], b, p); }
        head + (Reject(a[1..], p) + Reject(b, p));
        (head + Reject(a[1..], p)) + Reject(b, p);
        Reject(a, p) + Reject(b, p);
      }
    }
  }

  /** Every element goes to exactly one of `Filter` and `Reject`, as often as it occurs. */
  lemma {:induction false} FilterRejectPartition<T(!new)>(s: seq<T>, p: T -> bool)
    ensures multiset(Filter(s, p)) + multiset(Reject(s, p)) == multiset(s)
  {
    if |s| > 0 {
      FilterRejectPartition(s[1..], p);
      assert s == [s[0]] + s[1..];
    }
  }

  /**
   * `Filter` keeps every occurrence of a value satisfying `p` and none of
   * the others; `Reject` the reverse.
   */
  lemma FilterCount<T(!new)>(s: seq<T>, p: T -> bool, x: T)
    ensures multiset(Filter(s, p))[x] == if p(x) then multiset(s)[x] else 0
    ensures multiset(Reject(s, p))[x] == if p(x) then 0 else multiset(s)[x]
  {
    FilterRejectPartition(s, p);
    if p(x) {
      assert x !in Reject(s, p);
    } else {
      assert x !in Filter(s, p);
    }
  }

  /** LINQ `Select`. */
  function Map<T, U>(s: seq<T>, f: T -> U): (r: seq<U>)
    ensures |r| == |s|
    ensures forall i | 0 <= i < |s| :: r[i] == f(s[i])
  {
    if |s| == 0 then [] else [f(s[0])] + Map(s[1..], f)
  }

  /** `List.Remove(x)`: drops the first occurrence of `x`, if any. */
  function RemoveFirst<T(==)>(s: seq<T>, x: T): (r: seq<T>)
    ensures multiset(r) == multiset(s) - multiset{x}
  {
    if |s| == 0 then []
    else if s[0] == x then
      assert s == [s[0]] + s[1..];
      s[1..]
    else
      assert s == [s[0]] + s[1..];
      [s[0]] + RemoveFirst(s[1..], x)
  }

  /** `RemoveRange(items)`: `List.Remove` of each item in turn. */
  function RemoveRange<T(==)>(s: seq<T>, items: seq<T>): seq<T>
    decreases |items|
  {
    if |items| == 0 then s else RemoveRange(RemoveFirst(s, items[0]), items[1..])
  }

  /** `RemoveRange` takes away one occurrence per listed item, where there is one. */
  lemma {:induction false} RemoveRangeCount<T>(s: seq<T>, items: seq<T>)
    ensures multiset(RemoveRange(s, items)) == multiset(s) - multiset(items)
    decreases |items|
  {
    if |items| > 0 {
      var x, rest := items[0], items[1..];
      calc {
        multiset(RemoveRange(s, items));
        multiset(RemoveRange(RemoveFirst(s, x), rest));
        { RemoveRangeCount(RemoveFirst(s, x), rest); }
        multiset(RemoveFirst(s, x)) - multiset(rest);
        (multiset(s) - multiset{x}) - multiset(rest);
        { SubtractInTurn(multiset(s), multiset{x}, multiset(rest)); }
        multiset(s) - (multiset{x} + multiset(rest));
        { assert items == [x] + rest; }
        multiset(s) - multiset(items);
      }
    }
  }

  lemma SubtractInTurn<T>(a: multiset<T>, b: multiset<T>, c: multiset<T>)
    ensures (a - b) - c == a - (b + c)
  {
    forall e
      ensures ((a - b) - c)[e] == (a - (b + c))[e]
    {
    }
  }

  /**
   * Reference definition: `s` with, for every value `x`, its first `m[x]`
   * occurrences removed.
   */
  function DropFirsts<T(==)>(s: seq<T>, m: multiset<T>): seq<T>
  {
    if |s| == 0 then []
    else if s[0] in m then DropFirsts(s[1..], m - multiset{s[0]})
    else [s[0]] + DropFirsts(s[1..], m)
  }

  lemma {:induction false} DropNothing<T>(s: seq<T>)
    ensures DropFirsts(s, multiset{}) == s
  {
    if |s| > 0 {
      DropNothing(s[1..]);
    }
  }

  /** One more `Remove(x)` drops one more leading occurrence of `x`. */
  lemma {:induction false} RemoveFirstOfDropped<T>(s: seq<T>, m: multiset<T>, x: T)
    ensures RemoveFirst(DropFirsts(s, m), x) == DropFirsts(s, m + multiset{x})
  {
    if |s| > 0 {
      var h, t := s[0], s[1..];
      if h in m {
        calc {
          RemoveFirst(DropFirsts(s, m), x);
          RemoveFirst(DropFirsts(t, m - multiset{h}), x);
          { RemoveFirstOfDropped(t, m - multiset{h}, x); }
          DropFirsts(t, (m - multiset{h}) + multiset{x});
          { SwapAddRemove(m, h, x); }
          DropFirsts(t, (m + multiset{x}) - multiset{h});
        }
      } else if h == x {
        var d := DropFirsts(t, m);
        calc {
          RemoveFirst(DropFirsts(s, m), x);
          RemoveFirst([h] + d, x);
          { assert ([h] + d)[0] == h; assert ([h] + d)[1..] == d; }
          d;
          { assert (m + multiset{x}) - multiset{h} == m; }
          DropFirsts(s, m + multiset{x});
        }
      } else {
        var d := DropFirsts(t, m);
        calc {
          RemoveFirst(DropFirsts(s, m), x);
          RemoveFirst([h] + d, x);
          { assert ([h] + d)[0] == h; assert ([h] + d)[1..] == d; }
          [h] + RemoveFirst(d, x);
          { RemoveFirstOfDropped(t, m, x); }
          [h] + DropFirsts(t, m + multiset{x});
          { assert h !in m + multiset{x}; }
          DropFirsts(s, m + multiset{x});
        }
      }
    }
  }

  lemma SwapAddRemove<T>(m: multiset<T>, h: T, x: T)
    requires h in m
    ensures (m - multiset{h}) + multiset{x} == (m + multiset{x}) - multiset{h}
  {
  }

  lemma {:induction false} RemoveRangeFrom<T>(s: seq<T>, m: multiset<T>, items: seq<T>)
    ensures RemoveRange(DropFirsts(s, m), items) == DropFirsts(s, m + multiset(items))
    decreases |items|
  {
    if |items| == 0 {
      assert m + multiset(items) == m;
    } else {
      var x, rest := items[0], items[1..];
      calc {
        RemoveRange(DropFirsts(s, m), items);
        RemoveRange(RemoveFirst(DropFirsts(s, m), x), rest);
        { RemoveFirstOfDropped(s, m, x); }
        RemoveRange(DropFirsts(s, m + multiset{x}), rest);
        { RemoveRangeFrom(s, m + multiset{x}, rest); }
        DropFirsts(s, m + multiset{x} + multiset(rest));
      }
      assert m + multiset{x} + multiset(rest) == m + multiset(items) by {
        assert items == [x] + rest;
      }
    }
  }

  /**
   * `RemoveRange(s, items)` removes, for every value, as many leading
   * occurrences as `items` lists, whatever the order of `items`.
   */
  lemma RemoveRangeIsDropFirsts<T>(s: seq<T>, items: seq<T>)
    ensures RemoveRange(s, items) == DropFirsts(s, multiset(items))
  {
    DropNothing(s);
    RemoveRangeFrom(s, multiset{}, items);
    assert multiset{} + multiset(items) == multiset(items);
  }

  /** Removing every element satisfying `p` leaves the others, in order. */
  lemma {:induction false} DropFiltered<T(!new)>(s: seq<T>, p: T -> bool)
    ensures DropFirsts(s, multiset(Filter(s, p))) == Reject(s, p)
  {
    if |s| > 0 {
      var rest := Filter(s[1..], p);
      DropFiltered(s[1..], p);
      if p(s[0]) {
        assert Filter(s, p) == [s[0]] + rest;
        assert multiset(Filter(s, p)) - multiset{s[0]} == multiset(rest);
      } else {
        assert s[0] !in Filter(s, p);
      }
    }
  }

  /**
   * The elements not satisfying `p`, plus the last occurrence of `v` (which
   * satisfies `p`), in their original order.
   */
  function RejectKeepingLast<T(==)>(s: seq<T>, p: T -> bool, v: T): (r: seq<T>)
    ensures forall i | 0 <= i < |r| :: r[i] in s && (!p(r[i]) || r[i] == v)
    ensures p(v) ==> multiset(r)[v] == if v in s then 1 else 0
  {
    if |s| == 0 then []
    else if !p(s[0]) || (s[0] == v && v !in s[1..]) then [s[0]] + RejectKeepingLast(s[1..], p, v)
    else RejectKeepingLast(s[1..], p, v)
  }

  lemma {:induction false} KeepingAbsent<T(!new)>(s: seq<T>, p: T -> bool, v: T)
    requires v !in s
    ensures RejectKeepingLast(s, p, v) == Reject(s, p)
  {
    if |s| > 0 {
      KeepingAbsent(s[1..], p, v);
    }
  }

  /**
   * Removing every element satisfying `p` except one copy of `v` removes
   * the earlier copies of `v` and keeps the last one in place.
   */
  lemma {:induction false} DropFilteredButOne<T(!new)>(s: seq<T>, p: T -> bool, v: T)
    requires p(v)
    ensures DropFirsts(s, multiset(Filter(s, p)) - multiset{v}) == RejectKeepingLast(s, p, v)
  {
    if |s| > 0 {
      var rest := Filter(s[1..], p);
      var m := multiset(Filter(s, p)) - multiset{v};
      if !p(s[0]) {
        assert Filter(s, p) == rest;
        assert s[0] !in m;
        DropFilteredButOne(s[1..], p, v);
      } else {
        assert Filter(s, p) == [s[0]] + rest;
        if s[0] != v {
          assert s[0] in m;
          assert m - multiset{s[0]} == multiset(rest) - multiset{v};
          DropFilteredButOne(s[1..], p, v);
        } else if v in s[1..] {
          assert v in rest;
          assert multiset(rest)[v] >= 1;
          assert s[0] in m;
          assert m - multiset{s[0]} == multiset(rest) - multiset{v};
          DropFilteredButOne(s[1..], p, v);
        } else {
          assert v !in rest;
          assert m == multiset(rest);
          assert s[0] !in m;
          DropFiltered(s[1..], p);
          KeepingAbsent(s[1..], p, v);
        }
      }
    }
  }

  /** LINQ `Skip(n)`: a negative count skips nothing. */
  function Skip<T>(s: seq<T>, n: int): (r: seq<T>)
    ensures n <= 0 ==> r == s
    ensures 0 <= n <= |s| ==> r == s[n..]
    ensures n >= |s| ==> r == []
  {
    if n <= 0 then s else if n >= |s| then [] else s[n..]
  }

  /** LINQ `Take(n)`: a count beyond the end takes everything. */
  function Take<T>(s: seq<T>, n: int): (r: seq<T>)
    ensures n <= 0 ==> r == []
    ensures 0 <= n <= |s| ==> r == s[..n]
    ensures n >= |s| ==> r == s
  {
    if n <= 0 then [] else if n >= |s| then s else s[..n]
  }
}
