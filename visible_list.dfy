/** The derivation of the visible list from the loaded records, the status filter and the
    sort order, and the list of filter options. The specification functions come first; the
    imperative derivation (copy, filter loop, stable in-place sort of an array) is proved to
    compute them. */
module VisibleList {
  import opened ShipmentCard

  /** The filter value that keeps every record. */
  const AllStatuses: string := "All"
  /** The two sort orders that reorder the list; any other value keeps the filtered order. */
  const Ascending: string := "asc"
  const Descending: string := "desc"

  // ---------------------------------------------------------------------------------------
  // Filtering by status

  /** The records of `s` whose status is exactly `f`, in their order in `s`: each kept record
      has status `f`, and each record with status `f` is kept as often as it occurs. */
  function WithStatus(s: seq<Shipment>, f: string): (r: seq<Shipment>)
    ensures |r| <= |s|
    ensures forall i :: 0 <= i < |r| ==> r[i].status == f
  {
    if s == [] then []
    else
      var init := WithStatus(s[..|s| - 1], f);
      if s[|s| - 1].status == f then init + [s[|s| - 1]] else init
  }

  lemma {:induction false} WithStatusCount(s: seq<Shipment>, f: string)
    ensures forall x :: multiset(WithStatus(s, f))[x] == if x.status == f then multiset(s)[x] else 0
    decreases |s|
  {
    if s != [] {
      WithStatusCount(s[..|s| - 1], f);
      assert s == s[..|s| - 1] + [s[|s| - 1]];
    }
  }

  /** `r` can be obtained from `s` by deleting elements: the relative order of `s` is kept. */
  ghost predicate IsSubsequence(r: seq<Shipment>, s: seq<Shipment>)
    decreases |s|
  {
    if r == [] then true
    else if s == [] then false
    else
      (r[|r| - 1] == s[|s| - 1] && IsSubsequence(r[..|r| - 1], s[..|s| - 1]))
      || IsSubsequence(r, s[..|s| - 1])
  }

  lemma {:induction false} WithStatusIsSubsequence(s: seq<Shipment>, f: string)
    ensures IsSubsequence(WithStatus(s, f), s)
    decreases |s|
  {
    if s != [] {
      var init := WithStatus(s[..|s| - 1], f);
      WithStatusIsSubsequence(s[..|s| - 1], f);
      var r := WithStatus(s, f);
      if s[|s| - 1].status == f {
        assert r[..|r| - 1] == init;
      }
    }
  }

  /** Step 1 of the derivation: the filter value "All" keeps the list, any other value
      keeps the records with exactly that status. */
  function Filtered(shipments: seq<Shipment>, filterStatus: string): seq<Shipment>
  {
    if filterStatus == AllStatuses then shipments else WithStatus(shipments, filterStatus)
  }

  /** "All" is the identity; any other value selects exactly the records with that status,
      each as often as it occurs, in their original relative order. */
  lemma FilteredSpec(shipments: seq<Shipment>, filterStatus: string)
    ensures filterStatus == AllStatuses ==> Filtered(shipments, filterStatus) == shipments
    ensures filterStatus != AllStatuses ==>
      var r := Filtered(shipments, filterStatus);
      && (forall i :: 0 <= i < |r| ==> r[i].status == filterStatus)
      && (forall x :: multiset(r)[x] == if x.status == filterStatus then multiset(shipments)[x] else 0)
      && IsSubsequence(r, shipments)
  {
    WithStatusIsSubsequence(shipments, filterStatus);
    WithStatusCount(shipments, filterStatus);
  }

  /** A list whose records all have status `f` is left as it is by filtering on `f`. */
  lemma {:induction false} WithStatusOfUniform(s: seq<Shipment>, f: string)
    requires forall i :: 0 <= i < |s| ==> s[i].status == f
    ensures WithStatus(s, f) == s
    decreases |s|
  {
    if s != [] {
      var init := s[..|s| - 1];
      assert forall i :: 0 <= i < |init| ==> init[i] == s[i];
      WithStatusOfUniform(init, f);
      assert WithStatus(s, f) == init + [s[|s| - 1]];
      assert s == init + [s[|s| - 1]];
    }
  }

  // ---------------------------------------------------------------------------------------
  // Sorting by estimated delivery

  /** The comparator of the sort call: the difference of the two timestamps, later minus
      earlier for ascending order and the reverse for descending order. */
  function Compare(a: Shipment, b: Shipment, descending: bool): int
  {
    if descending then b.estimatedDelivery - a.estimatedDelivery
    else a.estimatedDelivery - b.estimatedDelivery
  }

  /** The first `n` records of `s` are ordered: each comes no later than the records after
      it, by the comparator. */
  ghost predicate OrderedPrefix(s: seq<Shipment>, n: nat, descending: bool)
  {
    n <= |s| && forall p, q :: 0 <= p < q < n ==> Compare(s[p], s[q], descending) <= 0
  }

  /** The whole of `s` is ordered. */
  ghost predicate Ordered(s: seq<Shipment>, descending: bool)
  {
    OrderedPrefix(s, |s|, descending)
  }

  /** The records of `s` due at timestamp `t`, in their order in `s`. */
  function DueAt(s: seq<Shipment>, t: int): seq<Shipment>
  {
    if s == [] then []
    else
      var init := DueAt(s[..|s| - 1], t);
      if s[|s| - 1].estimatedDelivery == t then init + [s[|s| - 1]] else init
  }

  /** Each record due at `t` is kept as often as it occurs, and no other record is. */
  lemma {:induction false} DueAtCount(s: seq<Shipment>, t: int)
    ensures forall x :: multiset(DueAt(s, t))[x] == if x.estimatedDelivery == t then multiset(s)[x] else 0
    decreases |s|
  {
    if s != [] {
      DueAtCount(s[..|s| - 1], t);
      assert s == s[..|s| - 1] + [s[|s| - 1]];
    }
  }

  /** Stability: for every timestamp, the records due then appear in the same relative order
      in `r` as in `s`. Since every record is due at its own timestamp, this also makes `r` a
      permutation of `s` (TiesArePermutation). */
  ghost predicate SameTies(r: seq<Shipment>, s: seq<Shipment>)
  {
    forall t :: DueAt(r, t) == DueAt(s, t)
  }

  lemma {:induction false} DueAtAppend(a: seq<Shipment>, b: seq<Shipment>, t: int)
    ensures DueAt(a + b, t) == DueAt(a, t) + DueAt(b, t)
    decreases |b|
  {
    if b == [] {
      assert a + b == a;
    } else {
      var b' := b[..|b| - 1];
      assert (a + b)[..|a + b| - 1] == a + b';
      DueAtAppend(a, b', t);
    }
  }

  lemma TiesArePermutation(r: seq<Shipment>, s: seq<Shipment>)
    requires SameTies(r, s)
    ensures multiset(r) == multiset(s)
  {
    forall x ensures multiset(r)[x] == multiset(s)[x] {
      DueAtCount(r, x.estimatedDelivery);
      DueAtCount(s, x.estimatedDelivery);
      assert DueAt(r, x.estimatedDelivery) == DueAt(s, x.estimatedDelivery);
    }
  }

  /** Exchanging two neighbours that are due at different times keeps the ties. */
  lemma SwapKeepsTies(s: seq<Shipment>, j: nat)
    requires 0 < j < |s|
    requires s[j - 1].estimatedDelivery != s[j].estimatedDelivery
    ensures SameTies(s[j - 1 := s[j]][j := s[j - 1]], s)
  {
    var s' := s[j - 1 := s[j]][j := s[j - 1]];
    var pre, x, y, post := s[..j - 1], s[j - 1], s[j], s[j + 1..];
    assert s == pre + [x] + [y] + post;
    assert s' == pre + [y] + [x] + post;
    forall t ensures DueAt(s', t) == DueAt(s, t) {
      var dp, dx, dy, dq := DueAt(pre, t), DueAt([x], t), DueAt([y], t), DueAt(post, t);
      DueAtSingleton(x, t);
      DueAtSingleton(y, t);
      DueAtAppend(pre + [x] + [y], post, t);
      DueAtAppend(pre + [x], [y], t);
      DueAtAppend(pre, [x], t);
      assert DueAt(s, t) == dp + dx + dy + dq;
      DueAtAppend(pre + [y] + [x], post, t);
      DueAtAppend(pre + [y], [x], t);
      DueAtAppend(pre, [y], t);
      assert DueAt(s', t) == dp + dy + dx + dq;
      assert dx == [] || dy == [];
    }
  }

  /** Inserts `x` behind every record of `t` that it does not have to precede: the step of a
      stable insertion sort, which never moves a record past one it ties with. */
  function Insert(t: seq<Shipment>, x: Shipment, descending: bool): (r: seq<Shipment>)
    ensures multiset(r) == multiset(t) + multiset{x}
    decreases |t|
  {
    if t == [] || Compare(t[|t| - 1], x, descending) <= 0 then t + [x]
    else
      assert t == t[..|t| - 1] + [t[|t| - 1]];
      Insert(t[..|t| - 1], x, descending) + [t[|t| - 1]]
  }

  /** The stable sort of `s` by the comparator. */
  function StableSorted(s: seq<Shipment>, descending: bool): (r: seq<Shipment>)
    ensures multiset(r) == multiset(s)
    decreases |s|
  {
    if s == [] then []
    else
      assert s == s[..|s| - 1] + [s[|s| - 1]];
      Insert(StableSorted(s[..|s| - 1], descending), s[|s| - 1], descending)
  }

  lemma {:induction false} InsertOrdered(t: seq<Shipment>, x: Shipment, descending: bool)
    requires Ordered(t, descending)
    ensures Ordered(Insert(t, x, descending), descending)
    decreases |t|
  {
    if !(t == [] || Compare(t[|t| - 1], x, descending) <= 0) {
      var init, y := t[..|t| - 1], t[|t| - 1];
      assert Ordered(init, descending);
      InsertOrdered(init, x, descending);
      var u := Insert(init, x, descending);
      forall z | z in u ensures Compare(z, y, descending) <= 0 {
        InsertedComesFirst(t, x, z, descending);
      }
      OrderedAppend(u, y, descending);
    }
  }

  /** Every record of `Insert(init, x)` may precede the last record `y` of `t` when `x`
      has to precede `y`. */
  lemma InsertedComesFirst(t: seq<Shipment>, x: Shipment, z: Shipment, descending: bool)
    requires Ordered(t, descending) && t != [] && Compare(t[|t| - 1], x, descending) > 0
    requires z in Insert(t[..|t| - 1], x, descending)
    ensures Compare(z, t[|t| - 1], descending) <= 0
  {
    var init := t[..|t| - 1];
    assert z in multiset(Insert(init, x, descending));
    if z != x {
      assert z in multiset(init);
      var k :| 0 <= k < |init| && init[k] == z;
      assert t[k] == z;
    }
  }

  lemma OrderedAppend(u: seq<Shipment>, y: Shipment, descending: bool)
    requires Ordered(u, descending)
    requires forall z :: z in u ==> Compare(z, y, descending) <= 0
    ensures Ordered(u + [y], descending)
  {
    var r := u + [y];
    forall i, j | 0 <= i < j < |r| ensures Compare(r[i], r[j], descending) <= 0 {
      if j == |r| - 1 {
        assert r[i] == u[i] && r[i] in u;
      } else {
        assert r[i] == u[i] && r[j] == u[j];
      }
    }
  }

  lemma {:induction false} InsertKeepsTies(t: seq<Shipment>, x: Shipment, descending: bool)
    ensures SameTies(Insert(t, x, descending), t + [x])
    decreases |t|
  {
    if !(t == [] || Compare(t[|t| - 1], x, descending) <= 0) {
      var init, y := t[..|t| - 1], t[|t| - 1];
      InsertKeepsTies(init, x, descending);
      var u := Insert(init, x, descending);
      assert Insert(t, x, descending) == u + [y];
      assert t + [x] == (init + [y]) + [x];
      forall k ensures DueAt(u + [y], k) == DueAt((init + [y]) + [x], k) {
        PassTie(init, u, x, y, k);
      }
    }
  }

  /** Moving `x` in front of a record `y` due at another time does not change any tie group. */
  lemma PassTie(init: seq<Shipment>, u: seq<Shipment>, x: Shipment, y: Shipment, k: int)
    requires DueAt(u, k) == DueAt(init + [x], k)
    requires x.estimatedDelivery != y.estimatedDelivery
    ensures DueAt(u + [y], k) == DueAt((init + [y]) + [x], k)
  {
    var di, dx, dy := DueAt(init, k), DueAt([x], k), DueAt([y], k);
    DueAtSingleton(x, k);
    DueAtSingleton(y, k);
    DueAtAppend(u, [y], k);
    DueAtAppend(init, [x], k);
    assert DueAt(u + [y], k) == di + dx + dy;
    DueAtAppend(init + [y], [x], k);
    DueAtAppend(init, [y], k);
    assert DueAt((init + [y]) + [x], k) == di + dy + dx;
    assert dx == [] || dy == [];
  }

  /** A single record is due at its own time only. */
  lemma DueAtSingleton(x: Shipment, t: int)
    ensures DueAt([x], t) == if x.estimatedDelivery == t then [x] else []
  {
    assert [x][..0] == [];
  }

  lemma {:induction false} StableSortedOrdered(s: seq<Shipment>, descending: bool)
    ensures Ordered(StableSorted(s, descending), descending)
    decreases |s|
  {
    if s != [] {
      StableSortedOrdered(s[..|s| - 1], descending);
      InsertOrdered(StableSorted(s[..|s| - 1], descending), s[|s| - 1], descending);
    }
  }

  lemma {:induction false} StableSortedKeepsTies(s: seq<Shipment>, descending: bool)
    ensures SameTies(StableSorted(s, descending), s)
    decreases |s|
  {
    if s != [] {
      var init, y := s[..|s| - 1], s[|s| - 1];
      var u := StableSorted(init, descending);
      StableSortedKeepsTies(init, descending);
      InsertKeepsTies(u, y, descending);
      assert s == init + [y];
      forall k ensures DueAt(StableSorted(s, descending), k) == DueAt(s, k) {
        DueAtAppend(u, [y], k);
        DueAtAppend(init, [y], k);
      }
    }
  }

  lemma DueAtHasMember(s: seq<Shipment>, i: nat)
    requires i < |s|
    ensures s[i] in DueAt(s, s[i].estimatedDelivery)
  {
    DueAtCount(s, s[i].estimatedDelivery);
    assert s[i] in multiset(s);
    assert s[i] in multiset(DueAt(s, s[i].estimatedDelivery));
  }

  /** In an ordered list every record may follow the first one. */
  lemma FirstPrecedesMembers(q: seq<Shipment>, x: Shipment, descending: bool)
    requires Ordered(q, descending) && x in q
    ensures Compare(q[0], x, descending) <= 0
  {
    var k :| 0 <= k < |q| && q[k] == x;
    if k > 0 { assert Compare(q[0], q[k], descending) <= 0; }
  }

  /** Two ordered lists with the same ties start with the same record. */
  lemma SameTiesSameHead(r: seq<Shipment>, q: seq<Shipment>, descending: bool)
    requires Ordered(r, descending) && Ordered(q, descending)
    requires SameTies(r, q) && r != [] && q != []
    ensures r[0] == q[0]
  {
    var a, b := r[0], q[0];
    DueAtHasMember(r, 0);
    DueAtCount(q, a.estimatedDelivery);
    assert a in multiset(DueAt(q, a.estimatedDelivery));
    assert a in q;
    FirstPrecedesMembers(q, a, descending);
    DueAtHasMember(q, 0);
    DueAtCount(r, b.estimatedDelivery);
    assert b in multiset(DueAt(r, b.estimatedDelivery));
    assert b in r;
    FirstPrecedesMembers(r, b, descending);
    var t := a.estimatedDelivery;
    assert b.estimatedDelivery == t;
    DueAtFirst(r);
    DueAtFirst(q);
    assert DueAt(r, t) == DueAt(q, t);
  }

  /** The first record of a list is the first of those due at its time. */
  lemma DueAtFirst(s: seq<Shipment>)
    requires s != []
    ensures DueAt(s, s[0].estimatedDelivery) != [] && DueAt(s, s[0].estimatedDelivery)[0] == s[0]
  {
    var t := s[0].estimatedDelivery;
    assert s == [s[0]] + s[1..];
    DueAtAppend([s[0]], s[1..], t);
    assert DueAt([s[0]], t) == [s[0]] by {
      assert [s[0]][..0] == [];
    }
  }

  /** Removing the same first record from two lists with the same ties keeps the ties. */
  lemma SameTiesTail(r: seq<Shipment>, q: seq<Shipment>)
    requires SameTies(r, q) && r != [] && q != [] && r[0] == q[0]
    ensures SameTies(r[1..], q[1..])
  {
    var a := r[0];
    assert r == [a] + r[1..] && q == [a] + q[1..];
    forall k ensures DueAt(r[1..], k) == DueAt(q[1..], k) {
      DueAtAppend([a], r[1..], k);
      DueAtAppend([a], q[1..], k);
      var p := DueAt([a], k);
      assert DueAt(r[1..], k) == DueAt(r, k)[|p|..];
      assert DueAt(q[1..], k) == DueAt(q, k)[|p|..];
    }
  }

  /** A list with no ties at any time is empty. */
  lemma NoTiesIsEmpty(r: seq<Shipment>)
    requires forall k :: DueAt(r, k) == []
    ensures r == []
  {
    if r != [] {
      DueAtHasMember(r, 0);
      assert false;
    }
  }

  /** Sortedness and stability pin the result down: two ordered lists with the same ties are
      equal. So any stable sort by this comparator, whatever its algorithm, gives StableSorted. */
  lemma {:induction false} OrderedTiesUnique(r: seq<Shipment>, q: seq<Shipment>, descending: bool)
    requires Ordered(r, descending) && Ordered(q, descending)
    requires SameTies(r, q)
    ensures r == q
    decreases |r|
  {
    if r == [] || q == [] {
      if r == [] {
        assert forall k :: DueAt(q, k) == DueAt(r, k);
        NoTiesIsEmpty(q);
      } else {
        assert forall k :: DueAt(r, k) == DueAt(q, k);
        NoTiesIsEmpty(r);
      }
    } else {
      SameTiesSameHead(r, q, descending);
      SameTiesTail(r, q);
      assert Ordered(r[1..], descending) && Ordered(q[1..], descending);
      OrderedTiesUnique(r[1..], q[1..], descending);
      assert r == [r[0]] + r[1..] && q == [q[0]] + q[1..];
    }
  }

  /** Step 2 of the derivation: "asc" sorts by increasing and "desc" by decreasing estimated
      delivery, stably; any other value keeps the order. */
  function SortedBy(s: seq<Shipment>, sortOrder: string): seq<Shipment>
  {
    if sortOrder == Ascending then StableSorted(s, false)
    else if sortOrder == Descending then StableSorted(s, true)
    else s
  }

  /** The sorted list is a permutation of its input and keeps the input's order among records
      due at the same time; under "asc" neighbours have non-decreasing timestamps, under
      "desc" non-increasing ones; under any other value the list is unchanged. */
  lemma SortedBySpec(s: seq<Shipment>, sortOrder: string)
    ensures multiset(SortedBy(s, sortOrder)) == multiset(s)
    ensures SameTies(SortedBy(s, sortOrder), s)
    ensures sortOrder == Ascending ==> var r := SortedBy(s, sortOrder);
      forall i :: 0 <= i < |r| - 1 ==> r[i].estimatedDelivery <= r[i + 1].estimatedDelivery
    ensures sortOrder == Descending ==> var r := SortedBy(s, sortOrder);
      forall i :: 0 <= i < |r| - 1 ==> r[i].estimatedDelivery >= r[i + 1].estimatedDelivery
    ensures sortOrder != Ascending && sortOrder != Descending ==> SortedBy(s, sortOrder) == s
  {
    if sortOrder == Ascending || sortOrder == Descending {
      var descending := sortOrder == Descending;
      StableSortedOrdered(s, descending);
      StableSortedKeepsTies(s, descending);
      var r := StableSorted(s, descending);
      forall i | 0 <= i < |r| - 1 ensures Compare(r[i], r[i + 1], descending) <= 0 { }
    }
  }

  /** The visible list: filter, then sort. */
  function Visible(shipments: seq<Shipment>, filterStatus: string, sortOrder: string): seq<Shipment>
  {
    SortedBy(Filtered(shipments, filterStatus), sortOrder)
  }

  /** Deriving again from the visible list, with the same filter and order, changes nothing. */
  lemma VisibleIdempotent(shipments: seq<Shipment>, filterStatus: string, sortOrder: string)
    ensures Visible(Visible(shipments, filterStatus, sortOrder), filterStatus, sortOrder)
         == Visible(shipments, filterStatus, sortOrder)
  {
    var f := Filtered(shipments, filterStatus);
    var v := SortedBy(f, sortOrder);
    SortedBySpec(f, sortOrder);
    if filterStatus != AllStatuses {
      forall i | 0 <= i < |v| ensures v[i].status == filterStatus {
        assert v[i] in multiset(v);
        assert v[i] in multiset(f);
      }
      WithStatusOfUniform(v, filterStatus);
    }
    assert Filtered(v, filterStatus) == v;
    if sortOrder == Ascending || sortOrder == Descending {
      var descending := sortOrder == Descending;
      StableSortedOrdered(v, descending);
      StableSortedKeepsTies(v, descending);
      StableSortedOrdered(f, descending);
      OrderedTiesUnique(StableSorted(v, descending), v, descending);
    }
  }

  /** The initial filter and order ("All", "none") show the loaded list as it is. */
  lemma InitialViewIsIdentity(shipments: seq<Shipment>)
    ensures Visible(shipments, AllStatuses, "none") == shipments
  {
  }

  // ---------------------------------------------------------------------------------------
  // Filter options

  /** The status of each record, in order. */
  function Statuses(s: seq<Shipment>): (r: seq<string>)
    ensures |r| == |s|
    ensures forall i :: 0 <= i < |s| ==> r[i] == s[i].status
  {
    seq(|s|, i requires 0 <= i < |s| => s[i].status)
  }

  /** The distinct values of `xs`, each once, in the order they first occur, as iterating a
      set built from `xs` gives them. */
  function FirstSeen(xs: seq<string>): (r: seq<string>)
    ensures |r| <= |xs|
    ensures forall x :: x in r <==> x in xs
    ensures forall i, j :: 0 <= i < j < |r| ==> r[i] != r[j]
    decreases |xs|
  {
    if xs == [] then []
    else
      var p := FirstSeen(xs[..|xs| - 1]);
      assert xs == xs[..|xs| - 1] + [xs[|xs| - 1]];
      if xs[|xs| - 1] in p then p else p + [xs[|xs| - 1]]
  }

  /** The position of the first occurrence of `x` in `xs`. */
  function FirstIndex(xs: seq<string>, x: string): (k: nat)
    requires x in xs
    ensures k < |xs| && xs[k] == x
    ensures forall i :: 0 <= i < k ==> xs[i] != x
  {
    if xs[0] == x then 0 else 1 + FirstIndex(xs[1..], x)
  }

  lemma FirstIndexExtend(xs: seq<string>, y: string, x: string)
    requires x in xs + [y]
    ensures x in xs ==> FirstIndex(xs + [y], x) == FirstIndex(xs, x)
    ensures x !in xs ==> FirstIndex(xs + [y], x) == |xs|
  {
    var k := FirstIndex(xs + [y], x);
    if x in xs {
      var k' := FirstIndex(xs, x);
      assert (xs + [y])[k'] == x;
    }
  }

  lemma {:induction false} FirstSeenInOrder(xs: seq<string>)
    ensures forall i, j :: 0 <= i < j < |FirstSeen(xs)| ==>
      FirstIndex(xs, FirstSeen(xs)[i]) < FirstIndex(xs, FirstSeen(xs)[j])
    decreases |xs|
  {
    if xs != [] {
      var init, y := xs[..|xs| - 1], xs[|xs| - 1];
      FirstSeenInOrder(init);
      assert xs == init + [y];
      var p, r := FirstSeen(init), FirstSeen(xs);
      forall i, j | 0 <= i < j < |r| ensures FirstIndex(xs, r[i]) < FirstIndex(xs, r[j]) {
        assert r[i] == p[i] && r[i] in init;
        FirstIndexExtend(init, y, r[i]);
        if j == |p| {
          assert y !in p;
          assert r == p + [y] && r[j] == y && y !in init;
          FirstIndexExtend(init, y, y);
          assert FirstIndex(init, r[i]) < |init|;
        } else {
          assert r[j] == p[j] && r[j] in init;
          FirstIndexExtend(init, y, r[j]);
          assert FirstIndex(init, p[i]) < FirstIndex(init, p[j]);
        }
      }
    }
  }

  /** The options of the status filter: "All" followed by the distinct statuses. */
  function StatusOptions(shipments: seq<Shipment>): seq<string>
  {
    [AllStatuses] + FirstSeen(Statuses(shipments))
  }

  /** The options start with "All"; after it comes every status of the list exactly once, in
      the order of first occurrence, and nothing else; so there are at most one more options
      than records. */
  lemma StatusOptionsSpec(shipments: seq<Shipment>)
    ensures var r := StatusOptions(shipments);
      && 1 <= |r| <= 1 + |shipments|
      && r[0] == AllStatuses
      && (forall x :: x in r[1..] <==> x in Statuses(shipments))
      && (forall i, j :: 1 <= i < j < |r| ==> r[i] != r[j])
      && (forall i, j :: 1 <= i < j < |r| ==>
            FirstIndex(Statuses(shipments), r[i]) < FirstIndex(Statuses(shipments), r[j]))
  {
    var r := StatusOptions(shipments);
    var tail := FirstSeen(Statuses(shipments));
    FirstSeenInOrder(Statuses(shipments));
    assert r[1..] == tail;
    forall i, j | 1 <= i < j < |r|
      ensures r[i] != r[j]
      ensures FirstIndex(Statuses(shipments), r[i]) < FirstIndex(Statuses(shipments), r[j])
    {
      assert r[i] == tail[i - 1] && r[j] == tail[j - 1];
      assert FirstIndex(Statuses(shipments), tail[i - 1]) < FirstIndex(Statuses(shipments), tail[j - 1]);
    }
  }

  // ---------------------------------------------------------------------------------------
  // The imperative derivation

  /** While `s[j]` travels left through `s[..i + 1]`: the other records there are ordered,
      and `s[j]` may precede every record behind it. */
  ghost predicate OrderedAround(s: seq<Shipment>, i: nat, j: nat, descending: bool)
  {
    && j <= i < |s|
    && (forall p, q :: 0 <= p < q <= i && p != j && q != j ==> Compare(s[p], s[q], descending) <= 0)
    && (forall q :: j < q <= i ==> Compare(s[j], s[q], descending) <= 0)
  }

  lemma OrderedAroundStart(s: seq<Shipment>, i: nat, descending: bool)
    requires i < |s| && OrderedPrefix(s, i, descending)
    ensures OrderedAround(s, i, i, descending)
  {
  }

  /** Swapping the travelling record with a left neighbour that must follow it moves the
      hole one place left. */
  lemma OrderedAroundSwap(s: seq<Shipment>, i: nat, j: nat, descending: bool)
    requires OrderedAround(s, i, j, descending) && 0 < j
    requires Compare(s[j - 1], s[j], descending) > 0
    ensures OrderedAround(s[j - 1 := s[j]][j := s[j - 1]], i, j - 1, descending)
  {
    var s' := s[j - 1 := s[j]][j := s[j - 1]];
    forall p, q | 0 <= p < q <= i && p != j - 1 && q != j - 1
      ensures Compare(s'[p], s'[q], descending) <= 0
    {
      if q == j {
        assert s'[q] == s[j - 1] && s'[p] == s[p];
      } else if p == j {
        assert s'[p] == s[j - 1] && s'[q] == s[q];
      }
    }
  }

  /** Once the travelling record meets a left neighbour it may follow, the prefix is ordered. */
  lemma OrderedAroundDone(s: seq<Shipment>, i: nat, j: nat, descending: bool)
    requires OrderedAround(s, i, j, descending)
    requires j == 0 || Compare(s[j - 1], s[j], descending) <= 0
    ensures OrderedPrefix(s, i + 1, descending)
  {
    forall p, q | 0 <= p < q <= i ensures Compare(s[p], s[q], descending) <= 0 {
      if q == j && p < j - 1 {
        assert Compare(s[p], s[j - 1], descending) <= 0;
      }
    }
  }

  /** Two lists with the same ties that end in the same records have the same ties before
      that common end. */
  lemma SameTiesCommonSuffix(r: seq<Shipment>, s: seq<Shipment>, n: nat)
    requires n <= |r| == |s| && r[n..] == s[n..] && SameTies(r, s)
    ensures SameTies(r[..n], s[..n])
  {
    forall t ensures DueAt(r[..n], t) == DueAt(s[..n], t) {
      assert r == r[..n] + r[n..] && s == s[..n] + s[n..];
      DueAtAppend(r[..n], r[n..], t);
      DueAtAppend(s[..n], s[n..], t);
      var x, y, z := DueAt(r[..n], t), DueAt(s[..n], t), DueAt(r[n..], t);
      assert x + z == y + z;
      assert x == (x + z)[..|x|] && y == (y + z)[..|y|];
    }
  }

  /** Sorts `a` in place by the comparator with insertion by neighbour swaps, which moves a
      record only past records it must precede. */
  method InsertionSort(a: array<Shipment>, descending: bool)
    modifies a
    ensures a[..] == StableSorted(old(a[..]), descending)
  {
    ghost var original := a[..];
    var i := 0;
    while i < a.Length
      invariant 0 <= i <= a.Length
      invariant OrderedPrefix(a[..], i, descending)
      invariant SameTies(a[..], original)
    {
      InsertLast(a, i, descending);
      i := i + 1;
    }
    StableSortedOrdered(original, descending);
    StableSortedKeepsTies(original, descending);
    OrderedTiesUnique(a[..], StableSorted(original, descending), descending);
  }

  /** One pass of the insertion sort: moves `a[i]` left into the ordered prefix `a[..i]`. */
  method InsertLast(a: array<Shipment>, i: nat, descending: bool)
    requires i < a.Length && OrderedPrefix(a[..], i, descending)
    modifies a
    ensures OrderedPrefix(a[..], i + 1, descending)
    ensures SameTies(a[..], old(a[..]))
    ensures a[i + 1..] == old(a[i + 1..])
    ensures SameTies(a[..i + 1], old(a[..i + 1]))
  {
    OrderedAroundStart(a[..], i, descending);
    var j: nat := i;
    while j > 0 && Compare(a[j - 1], a[j], descending) > 0
      invariant OrderedAround(a[..], i, j, descending)
      invariant SameTies(a[..], old(a[..]))
      invariant a[i + 1..] == old(a[i + 1..])
    {
      ghost var s := a[..];
      OrderedAroundSwap(s, i, j, descending);
      SwapKeepsTies(s, j);
      a[j - 1], a[j] := a[j], a[j - 1];
      assert a[..] == s[j - 1 := s[j]][j := s[j - 1]];
      j := j - 1;
    }
    OrderedAroundDone(a[..], i, j, descending);
    SameTiesCommonSuffix(a[..], old(a[..]), i + 1);
  }

  /** The filter step on a copy of the records: the copy itself for "All", otherwise the
      records with exactly that status, collected in one pass. */
  method FilterCopy(shipments: seq<Shipment>, filterStatus: string) returns (filtered: seq<Shipment>)
    ensures filtered == Filtered(shipments, filterStatus)
  {
    filtered := shipments;
    if filterStatus != AllStatuses {
      filtered := [];
      var i := 0;
      while i < |shipments|
        invariant 0 <= i <= |shipments|
        invariant filtered == WithStatus(shipments[..i], filterStatus)
      {
        assert shipments[..i + 1][..i] == shipments[..i];
        if shipments[i].status == filterStatus {
          filtered := filtered + [shipments[i]];
        }
        i := i + 1;
      }
      assert shipments[..i] == shipments;
    }
  }

  /** The derivation as the dashboard runs it: copy the records, filter the copy unless the
      filter is "All", and sort it in place under "asc" or "desc". */
  method ComputeVisible(shipments: seq<Shipment>, filterStatus: string, sortOrder: string)
    returns (visible: seq<Shipment>)
    ensures visible == Visible(shipments, filterStatus, sortOrder)
  {
    var filtered := FilterCopy(shipments, filterStatus);
    var a := new Shipment[|filtered|](k requires 0 <= k < |filtered| => filtered[k]);
    assert a[..] == filtered;
    if sortOrder == Ascending {
      InsertionSort(a, false);
    } else if sortOrder == Descending {
      InsertionSort(a, true);
    }
    visible := a[..];
  }
}
