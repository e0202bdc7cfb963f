/** The home screen (src/pages/Home.tsx): the catalog copied and sorted by
    the active chip, then narrowed by a case-insensitive match on name or
    location, and the strip of recent orders. */
module HomePage {
  import opened Types
  import Seqs
  import Text

  datatype SortFilter = Nearest | MostItems | Recent

  /** The comparator passed to `sort`; 'recent' falls through to the default
      case. A non-positive value lets `a` come before `b`. */
  function Compare(f: SortFilter, a: Machine, b: Machine): real {
    match f
    case Nearest => a.distance - b.distance
    case MostItems => (b.availableItems - a.availableItems) as real
    case _ => a.distance - b.distance
  }

  predicate Precedes(f: SortFilter, a: Machine, b: Machine) {
    Compare(f, a, b) <= 0.0
  }

  predicate Sorted(f: SortFilter, s: seq<Machine>) {
    forall i, j :: 0 <= i < j < |s| ==> Precedes(f, s[i], s[j])
  }

  /** The comparator's order is total and transitive for every filter. */
  lemma PrecedesTotalPreorder(f: SortFilter, a: Machine, b: Machine, c: Machine)
    ensures Precedes(f, a, b) || Precedes(f, b, a)
    ensures Precedes(f, a, b) && Precedes(f, b, c) ==> Precedes(f, a, c)
  {
  }

  /** Places `x` before the first element it may precede; equal elements keep
      `x` first, which makes the sort stable. */
  function Insert(f: SortFilter, x: Machine, s: seq<Machine>): (r: seq<Machine>)
    ensures multiset(r) == multiset(s) + multiset{x}
    decreases |s|
  {
    if s == [] then [x]
    else if Precedes(f, x, s[0]) then [x] + s
    else
      assert s == [s[0]] + s[1..];
      [s[0]] + Insert(f, x, s[1..])
  }

  lemma SortedTail(f: SortFilter, s: seq<Machine>)
    requires Sorted(f, s) && s != []
    ensures Sorted(f, s[1..])
  {
    forall i, j | 0 <= i < j < |s[1..]| ensures Precedes(f, s[1..][i], s[1..][j]) {
      assert s[1..][i] == s[i + 1] && s[1..][j] == s[j + 1];
    }
  }

  /** Every element of `Insert(f, x, s)` is `x` or an element of `s`. */
  lemma InsertElements(f: SortFilter, x: Machine, s: seq<Machine>, j: nat)
    requires j < |Insert(f, x, s)|
    ensures Insert(f, x, s)[j] == x || Insert(f, x, s)[j] in s
  {
    var r := Insert(f, x, s);
    assert r[j] in multiset(r);
  }

  /** A head that may precede `x` and everything in a sorted tail may precede
      everything in the tail with `x` inserted. */
  lemma HeadPrecedesInsert(f: SortFilter, x: Machine, s: seq<Machine>)
    requires Sorted(f, s) && s != []
    requires !Precedes(f, x, s[0])
    ensures forall j :: 0 <= j < |Insert(f, x, s[1..])| ==> Precedes(f, s[0], Insert(f, x, s[1..])[j])
  {
    var rest := Insert(f, x, s[1..]);
    forall j | 0 <= j < |rest| ensures Precedes(f, s[0], rest[j]) {
      InsertElements(f, x, s[1..], j);
      if rest[j] == x {
        PrecedesTotalPreorder(f, x, s[0], s[0]);
      } else {
        var k :| 0 <= k < |s[1..]| && s[1..][k] == rest[j];
        assert s[k + 1] == rest[j];
      }
    }
  }

  /** Inserting into a sorted list keeps it sorted. */
  lemma {:induction false} InsertSorted(f: SortFilter, x: Machine, s: seq<Machine>)
    requires Sorted(f, s)
    ensures Sorted(f, Insert(f, x, s))
    decreases |s|
  {
    if s != [] {
      var r := Insert(f, x, s);
      if Precedes(f, x, s[0]) {
        forall i, j | 0 <= i < j < |r| ensures Precedes(f, r[i], r[j]) {
          if i == 0 {
            PrecedesTotalPreorder(f, x, s[0], s[j - 1]);
          } else {
            assert r[i] == s[i - 1] && r[j] == s[j - 1];
          }
        }
      } else {
        SortedTail(f, s);
        InsertSorted(f, x, s[1..]);
        HeadPrecedesInsert(f, x, s);
        var rest := Insert(f, x, s[1..]);
        assert r == [s[0]] + rest;
        forall i, j | 0 <= i < j < |r| ensures Precedes(f, r[i], r[j]) {
          if i == 0 {
            assert r[j] == rest[j - 1];
          } else {
            assert r[i] == rest[i - 1] && r[j] == rest[j - 1];
          }
        }
      }
    }
  }

  /** `[...mockMachines].sort(comparator)`: a sorted permutation of a copy,
      leaving the catalog itself as it was. */
  function SortMachines(f: SortFilter, s: seq<Machine>): (r: seq<Machine>)
    ensures multiset(r) == multiset(s)
    ensures Sorted(f, r)
    decreases |s|
  {
    if s == [] then []
    else
      assert s == [s[0]] + s[1..];
      InsertSorted(f, s[0], SortMachines(f, s[1..]));
      Insert(f, s[0], SortMachines(f, s[1..]))
  }

  /** 'nearest' orders by ascending distance. */
  lemma NearestAscending(s: seq<Machine>)
    ensures forall i, j :: 0 <= i < j < |SortMachines(Nearest, s)| ==>
      SortMachines(Nearest, s)[i].distance <= SortMachines(Nearest, s)[j].distance
  {
  }

  /** 'most-items' orders by descending number of available items. */
  lemma MostItemsDescending(s: seq<Machine>)
    ensures forall i, j :: 0 <= i < j < |SortMachines(MostItems, s)| ==>
      SortMachines(MostItems, s)[i].availableItems >= SortMachines(MostItems, s)[j].availableItems
  {
  }

  /** 'recent' has no case of its own and sorts exactly as 'nearest'. */
  lemma {:induction false} RecentSortsLikeNearest(s: seq<Machine>)
    ensures SortMachines(Recent, s) == SortMachines(Nearest, s)
    decreases |s|
  {
    if s != [] {
      RecentSortsLikeNearest(s[1..]);
      InsertRecentLikeNearest(s[0], SortMachines(Nearest, s[1..]));
    }
  }

  lemma {:induction false} InsertRecentLikeNearest(x: Machine, s: seq<Machine>)
    ensures Insert(Recent, x, s) == Insert(Nearest, x, s)
    decreases |s|
  {
    if s != [] {
      InsertRecentLikeNearest(x, s[1..]);
    }
  }

  /** The text match of the home screen: name or location, never address. */
  predicate MatchesSearch(m: Machine, query: string) {
    Text.Includes(Text.Lower(m.name), Text.Lower(query))
    || Text.Includes(Text.Lower(m.location), Text.Lower(query))
  }

  /** `filteredMachines`: the sorted list narrowed by the text match. */
  function FilteredMachines(catalog: seq<Machine>, f: SortFilter, query: string): (r: seq<Machine>)
    ensures Sorted(f, r)
    ensures forall m :: m in r <==> m in catalog && MatchesSearch(m, query)
    ensures |r| <= |catalog|
    ensures Seqs.IsSubseq(r, SortMachines(f, catalog))
    ensures forall m :: multiset(r)[m] == if MatchesSearch(m, query) then multiset(catalog)[m] else 0
  {
    var sorted := SortMachines(f, catalog);
    var keep := (m: Machine) => MatchesSearch(m, query);
    var r := Seqs.Filter(sorted, keep);
    assert Sorted(f, r) by {
      var before := (a: Machine, b: Machine) => Precedes(f, a, b);
      assert Seqs.Pairwise(sorted, before);
      Seqs.FilterKeepsOrder(sorted, keep, before);
    }
    assert Seqs.IsSubseq(r, sorted) by { Seqs.FilterIsSubseq(sorted, keep); }
    assert forall m :: multiset(r)[m] == if MatchesSearch(m, query) then multiset(catalog)[m] else 0 by {
      Seqs.FilterMultiset(sorted, keep);
    }
    assert forall m :: m in sorted <==> m in multiset(sorted);
    assert |sorted| == |multiset(sorted)| == |catalog|;
    r
  }

  /** A machine whose name or location misses the query is hidden even when
      its address contains it. */
  lemma AddressNotConsulted(catalog: seq<Machine>, f: SortFilter, query: string, m: Machine)
    requires m in catalog
    requires !Text.Includes(Text.Lower(m.name), Text.Lower(query))
    requires !Text.Includes(Text.Lower(m.location), Text.Lower(query))
    ensures m !in FilteredMachines(catalog, f, query)
  {
  }

  /** `mockOrders.slice(0, 3)`: at most the first three orders. */
  function RecentOrders(orders: seq<Order>): (r: seq<Order>)
    ensures |r| <= 3
    ensures |r| == if |orders| < 3 then |orders| else 3
    ensures forall i :: 0 <= i < |r| ==> r[i] == orders[i]
  {
    if |orders| < 3 then orders else orders[..3]
  }
}
