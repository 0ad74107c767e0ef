/**
 * The trolley logic of the customer client stated on values: finding,
 * merging, sorting and grouping lines keyed by product id. The class in
 * customer_model.dfy performs these steps in place and is proved against the
 * functions here.
 */
module TrolleyLines {
  import opened Wrappers
  import opened JavaLang
  import opened Catalogue

  // ---------------------------------------------------------------- ids

  /** The set of product ids that occur in `t`. */
  ghost function IdSet(t: seq<Product>): set<string>
  {
    set k | 0 <= k < |t| :: t[k].id
  }

  /** At most one line per product id. */
  ghost predicate UniqueIds(t: seq<Product>)
  {
    forall i, j :: 0 <= i < j < |t| ==> t[i].id != t[j].id
  }

  /** Non-decreasing by product id under `String.compareTo`. */
  ghost predicate SortedById(t: seq<Product>)
  {
    forall i, j :: 0 <= i < j < |t| ==> CompareTo(t[i].id, t[j].id) <= 0
  }

  /** The index of the first line with product id `id`, if there is one. */
  function FindId(t: seq<Product>, id: string): (r: Option<nat>)
    ensures r.Some? ==> r.value < |t| && t[r.value].id == id
    ensures r.Some? ==> forall j :: 0 <= j < r.value ==> t[j].id != id
    ensures r.None? ==> forall j :: 0 <= j < |t| ==> t[j].id != id
  {
    if t == [] then None
    else if t[0].id == id then Some(0)
    else
      match FindId(t[1..], id)
      case None => None
      case Some(i) => Some(i + 1)
  }

  lemma IdSetAppend(t: seq<Product>, x: Product)
    ensures IdSet(t + [x]) == IdSet(t) + {x.id}
  {
    var u := t + [x];
    assert forall k :: 0 <= k < |t| ==> u[k] == t[k];
    assert u[|t|] == x;
  }

  /** With one line per id, there are as many ids as lines. */
  lemma {:induction false} UniqueIdsCard(t: seq<Product>)
    requires UniqueIds(t)
    ensures |IdSet(t)| == |t|
  {
    if t != [] {
      var u := t[..|t| - 1];
      assert t == u + [t[|t| - 1]];
      assert UniqueIds(u);
      UniqueIdsCard(u);
      IdSetAppend(u, t[|t| - 1]);
      assert t[|t| - 1].id !in IdSet(u);
    }
  }

  // ---------------------------------------------------------- quantities

  /** What one line contributes to the ordered quantity of `id`. */
  function Contrib(line: Product, id: string): int
  {
    if line.id == id then line.orderedQty else 0
  }

  /** The total ordered quantity of product `id` over all lines of `t`. */
  function QtyOf(t: seq<Product>, id: string): (r: int)
    ensures (forall k :: 0 <= k < |t| ==> t[k].id != id) ==> r == 0
    ensures (forall k :: 0 <= k < |t| ==> t[k].orderedQty >= 0) ==> r >= 0
  {
    if t == [] then 0 else Contrib(t[0], id) + QtyOf(t[1..], id)
  }

  lemma {:induction false} QtyOfAppend(t: seq<Product>, x: Product, id: string)
    ensures QtyOf(t + [x], id) == QtyOf(t, id) + Contrib(x, id)
  {
    if t != [] {
      assert (t + [x])[1..] == t[1..] + [x];
      QtyOfAppend(t[1..], x, id);
    }
  }

  lemma {:induction false} QtyOfUpdate(t: seq<Product>, i: nat, x: Product, id: string)
    requires i < |t|
    ensures QtyOf(t[i := x], id) == QtyOf(t, id) - Contrib(t[i], id) + Contrib(x, id)
  {
    if i == 0 {
      assert t[i := x][1..] == t[1..];
    } else {
      assert t[i := x][1..] == t[1..][i - 1 := x];
      QtyOfUpdate(t[1..], i - 1, x, id);
    }
  }

  /** With one line per id, the quantity of an id is that of its line. */
  lemma {:induction false} QtyOfUnique(t: seq<Product>, k: nat)
    requires UniqueIds(t) && k < |t|
    ensures QtyOf(t, t[k].id) == t[k].orderedQty
  {
    if k == 0 {
      assert forall j :: 0 <= j < |t[1..]| ==> t[1..][j] == t[j + 1];
    } else {
      assert UniqueIds(t[1..]);
      QtyOfUnique(t[1..], k - 1);
      assert t[1..][k - 1] == t[k];
    }
  }

  // ------------------------------------------------------- add or merge

  /** An existing line after one more unit: `Math.max(0, qty) + 1`. */
  function Bumped(line: Product): Product
  {
    line.(orderedQty := AddInt32(Max(0, line.orderedQty), 1))
  }

  /** The fresh copy of a product that a new trolley line starts as. */
  function NewLine(p: Product): Product
  {
    p.(orderedQty := 1)
  }

  /** The trolley after adding one unit of `p`: merged into the first line with its id, or appended. */
  function AddOrMerge(t: seq<Product>, p: Product): seq<Product>
  {
    match FindId(t, p.id)
    case Some(i) => t[i := Bumped(t[i])]
    case None => t + [NewLine(p)]
  }

  /** A product already in the trolley only raises the quantity of its first line. */
  lemma AddOrMergeExisting(t: seq<Product>, p: Product, i: nat)
    requires i < |t| && t[i].id == p.id
    requires forall j :: 0 <= j < i ==> t[j].id != p.id
    ensures |AddOrMerge(t, p)| == |t|
    ensures AddOrMerge(t, p)[i] == t[i].(orderedQty := AddInt32(Max(0, t[i].orderedQty), 1))
    ensures forall j :: 0 <= j < |t| && j != i ==> AddOrMerge(t, p)[j] == t[j]
  {
  }

  /** A product not yet in the trolley is appended as a copy with quantity 1. */
  lemma AddOrMergeFresh(t: seq<Product>, p: Product)
    requires forall j :: 0 <= j < |t| ==> t[j].id != p.id
    ensures |AddOrMerge(t, p)| == |t| + 1
    ensures AddOrMerge(t, p)[..|t|] == t
    ensures var line := AddOrMerge(t, p)[|t|];
      line.id == p.id && line.description == p.description && line.imageName == p.imageName
      && line.unitPrice == p.unitPrice && line.stock == p.stock && line.orderedQty == 1
  {
  }

  /** Adding keeps one line per product id. */
  lemma AddOrMergeUnique(t: seq<Product>, p: Product)
    requires UniqueIds(t)
    ensures UniqueIds(AddOrMerge(t, p))
  {
    match FindId(t, p.id)
    case Some(i) =>
    case None =>
      var r := t + [NewLine(p)];
      forall i, j | 0 <= i < j < |r| ensures r[i].id != r[j].id {
        if j == |t| {
          assert r[i] == t[i];
        }
      }
  }

  /** Adding raises the total quantity of the product by exactly one and no other. */
  lemma AddOrMergeQuantity(t: seq<Product>, p: Product)
    requires forall k :: 0 <= k < |t| && t[k].id == p.id ==> 0 <= t[k].orderedQty < Int32Max
    ensures QtyOf(AddOrMerge(t, p), p.id) == QtyOf(t, p.id) + 1
    ensures forall id :: id != p.id ==> QtyOf(AddOrMerge(t, p), id) == QtyOf(t, id)
  {
    match FindId(t, p.id)
    case Some(i) =>
      forall id {
        QtyOfUpdate(t, i, Bumped(t[i]), id);
      }
    case None =>
      forall id {
        QtyOfAppend(t, NewLine(p), id);
      }
  }

  /** The trolley after adding `p` `n` times in a row. */
  function AddTimes(t: seq<Product>, p: Product, n: nat): seq<Product>
  {
    if n == 0 then t else AddOrMerge(AddTimes(t, p, n - 1), p)
  }

  /** Adding a product `n` times gives one line with quantity `n`, never `n` lines. */
  lemma {:induction false} AddTimesOneLine(t: seq<Product>, p: Product, n: nat)
    requires 1 <= n <= Int32Max
    requires forall j :: 0 <= j < |t| ==> t[j].id != p.id
    ensures AddTimes(t, p, n) == t + [p.(orderedQty := n)]
  {
    if n > 1 {
      AddTimesOneLine(t, p, n - 1);
      var u := t + [p.(orderedQty := n - 1)];
      assert u[|t|].id == p.id;
      assert FindId(u, p.id) == Some(|t|);
    }
  }

  // ---------------------------------------------------------------- sort

  /**
   * Places `x` before the first line whose id is not smaller, so that among
   * equal ids the earlier line stays first.
   */
  function Insert(x: Product, s: seq<Product>): (r: seq<Product>)
    ensures |r| == |s| + 1
  {
    if s == [] || CompareTo(x.id, s[0].id) <= 0 then [x] + s
    else [s[0]] + Insert(x, s[1..])
  }

  /** `trolley.sort(Comparator.comparing(Product::getProductId))`, a stable sort. */
  function SortById(t: seq<Product>): (r: seq<Product>)
    ensures |r| == |t|
  {
    if t == [] then [] else Insert(t[0], SortById(t[1..]))
  }

  lemma {:induction false} InsertPermutes(x: Product, s: seq<Product>)
    ensures multiset(Insert(x, s)) == multiset(s) + multiset{x}
  {
    if s != [] && CompareTo(x.id, s[0].id) > 0 {
      InsertPermutes(x, s[1..]);
      assert s == [s[0]] + s[1..];
    }
  }

  /** Sorting only rearranges the lines. */
  lemma {:induction false} SortByIdPermutes(t: seq<Product>)
    ensures multiset(SortById(t)) == multiset(t)
  {
    if t != [] {
      SortByIdPermutes(t[1..]);
      InsertPermutes(t[0], SortById(t[1..]));
      assert t == [t[0]] + t[1..];
    }
  }

  /** A line that is not above any line of a sorted `u` can go in front of it. */
  lemma SortedCons(a: Product, u: seq<Product>)
    requires SortedById(u)
    requires forall j :: 0 <= j < |u| ==> CompareTo(a.id, u[j].id) <= 0
    ensures SortedById([a] + u)
  {
    var r := [a] + u;
    forall i, j | 0 <= i < j < |r| ensures CompareTo(r[i].id, r[j].id) <= 0 {
      assert r[j] == u[j - 1];
      if i > 0 {
        assert r[i] == u[i - 1];
      }
    }
  }

  lemma {:induction false} InsertSorted(x: Product, s: seq<Product>)
    requires SortedById(s)
    ensures SortedById(Insert(x, s))
  {
    if s == [] || CompareTo(x.id, s[0].id) <= 0 {
      forall j | 0 <= j < |s| ensures CompareTo(x.id, s[j].id) <= 0 {
        if j > 0 {
          CompareToTransitive(x.id, s[0].id, s[j].id);
        }
      }
      SortedCons(x, s);
    } else {
      var rest := Insert(x, s[1..]);
      assert SortedById(s[1..]);
      InsertSorted(x, s[1..]);
      InsertPermutes(x, s[1..]);
      forall j | 0 <= j < |rest| ensures CompareTo(s[0].id, rest[j].id) <= 0 {
        assert rest[j] in multiset(rest);
        if rest[j] == x {
          CompareToAntisymmetric(x.id, s[0].id);
        } else {
          assert rest[j] in multiset(s[1..]);
          var k :| 0 <= k < |s[1..]| && s[1..][k] == rest[j];
          assert s[k + 1] == rest[j];
        }
      }
      SortedCons(s[0], rest);
    }
  }

  /** After sorting, the lines are non-decreasing by id. */
  lemma {:induction false} SortByIdSorted(t: seq<Product>)
    ensures SortedById(SortById(t))
  {
    if t != [] {
      SortByIdSorted(t[1..]);
      InsertSorted(t[0], SortById(t[1..]));
    }
  }

  /** Sorting lines that are already in order changes nothing. */
  lemma {:induction false} SortByIdOfSorted(t: seq<Product>)
    requires SortedById(t)
    ensures SortById(t) == t
  {
    if t != [] {
      assert SortedById(t[1..]);
      SortByIdOfSorted(t[1..]);
      assert t == [t[0]] + t[1..];
      if |t| > 1 {
        assert t[1..][0] == t[1];
      }
    }
  }

  /** Sorting twice is sorting once. */
  lemma SortByIdIdempotent(t: seq<Product>)
    ensures SortById(SortById(t)) == SortById(t)
  {
    SortByIdSorted(t);
    SortByIdOfSorted(SortById(t));
  }

  /** Line `line` if its product id is `id`, else nothing. */
  function Keep(line: Product, id: string): seq<Product>
  {
    if line.id == id then [line] else []
  }

  /** The lines with product id `id`, in order. */
  function LinesWithId(t: seq<Product>, id: string): seq<Product>
  {
    if t == [] then [] else Keep(t[0], id) + LinesWithId(t[1..], id)
  }

  lemma LinesWithIdCons(a: Product, u: seq<Product>, id: string)
    ensures LinesWithId([a] + u, id) == Keep(a, id) + LinesWithId(u, id)
  {
    assert ([a] + u)[1..] == u;
  }

  lemma {:induction false} InsertStable(x: Product, s: seq<Product>, id: string)
    ensures LinesWithId(Insert(x, s), id) == LinesWithId([x] + s, id)
  {
    if s != [] && CompareTo(x.id, s[0].id) > 0 {
      var s' := s[1..];
      assert s == [s[0]] + s';
      CompareToZero(x.id, s[0].id);
      calc {
        LinesWithId(Insert(x, s), id);
        { LinesWithIdCons(s[0], Insert(x, s'), id); }
        Keep(s[0], id) + LinesWithId(Insert(x, s'), id);
        { InsertStable(x, s', id); LinesWithIdCons(x, s', id); }
        Keep(s[0], id) + (Keep(x, id) + LinesWithId(s', id));
        { assert Keep(s[0], id) == [] || Keep(x, id) == []; }
        Keep(x, id) + (Keep(s[0], id) + LinesWithId(s', id));
        { LinesWithIdCons(s[0], s', id); LinesWithIdCons(x, s, id); }
        LinesWithId([x] + s, id);
      }
    }
  }

  /** Sorting is stable: lines with equal ids keep their relative order. */
  lemma {:induction false} SortByIdStable(t: seq<Product>, id: string)
    ensures LinesWithId(SortById(t), id) == LinesWithId(t, id)
  {
    if t != [] {
      SortByIdStable(t[1..], id);
      InsertStable(t[0], SortById(t[1..]), id);
      assert ([t[0]] + SortById(t[1..]))[1..] == SortById(t[1..]);
    }
  }

  lemma {:induction false} InsertQuantity(x: Product, s: seq<Product>, id: string)
    ensures QtyOf(Insert(x, s), id) == Contrib(x, id) + QtyOf(s, id)
  {
    if s != [] && CompareTo(x.id, s[0].id) > 0 {
      InsertQuantity(x, s[1..], id);
      assert ([s[0]] + Insert(x, s[1..]))[1..] == Insert(x, s[1..]);
    } else {
      assert ([x] + s)[1..] == s;
    }
  }

  /** Sorting leaves every product's total quantity as it was. */
  lemma {:induction false} SortByIdQuantity(t: seq<Product>, id: string)
    ensures QtyOf(SortById(t), id) == QtyOf(t, id)
  {
    if t != [] {
      SortByIdQuantity(t[1..], id);
      InsertQuantity(t[0], SortById(t[1..]), id);
    }
  }

  /** Each line of `a` also occurs in any permutation `b` of it. */
  lemma PermutedLines(a: seq<Product>, b: seq<Product>)
    requires multiset(a) == multiset(b)
    ensures forall j :: 0 <= j < |a| ==> a[j] in b
  {
    forall j | 0 <= j < |a| ensures a[j] in b {
      assert a[j] in multiset(a);
    }
  }

  lemma ConsUnique(a: Product, u: seq<Product>)
    requires UniqueIds(u) && forall k :: 0 <= k < |u| ==> u[k].id != a.id
    ensures UniqueIds([a] + u)
  {
    var r := [a] + u;
    forall i, j | 0 <= i < j < |r| ensures r[i].id != r[j].id {
      if i == 0 {
        assert r[j] == u[j - 1];
      } else {
        assert r[i] == u[i - 1] && r[j] == u[j - 1];
      }
    }
  }

  lemma {:induction false} InsertUnique(x: Product, s: seq<Product>)
    requires UniqueIds(s) && forall k :: 0 <= k < |s| ==> s[k].id != x.id
    ensures UniqueIds(Insert(x, s))
  {
    if s != [] && CompareTo(x.id, s[0].id) > 0 {
      assert UniqueIds(s[1..]);
      assert forall k :: 0 <= k < |s[1..]| ==> s[1..][k] == s[k + 1];
      InsertUnique(x, s[1..]);
      var rest := Insert(x, s[1..]);
      InsertPermutes(x, s[1..]);
      forall j | 0 <= j < |rest| ensures rest[j].id != s[0].id {
        assert rest[j] in multiset(rest);
        if rest[j] != x {
          assert rest[j] in multiset(s[1..]);
          var k :| 0 <= k < |s[1..]| && s[1..][k] == rest[j];
          assert s[k + 1] == rest[j];
        }
      }
      ConsUnique(s[0], rest);
    } else {
      ConsUnique(x, s);
    }
  }

  /** Sorting keeps one line per product id. */
  lemma {:induction false} SortByIdUnique(t: seq<Product>)
    requires UniqueIds(t)
    ensures UniqueIds(SortById(t))
  {
    if t != [] {
      assert UniqueIds(t[1..]);
      SortByIdUnique(t[1..]);
      var s := SortById(t[1..]);
      assert forall k :: 0 <= k < |s| ==> s[k].id != t[0].id by {
        forall k | 0 <= k < |s| ensures s[k].id != t[0].id {
          SortByIdPermutes(t[1..]);
          PermutedLines(s, t[1..]);
          var m :| 0 <= m < |t[1..]| && t[1..][m] == s[k];
          assert t[m + 1] == s[k];
        }
      }
      InsertUnique(t[0], s);
    }
  }

  // ------------------------------------------------------- add to trolley

  /** The trolley after `addToTrolley` with product `p` selected: merge, then sort. */
  function AddThenSort(t: seq<Product>, p: Product): seq<Product>
  {
    SortById(AddOrMerge(t, p))
  }

  /** Adding then sorting raises the product's total quantity by one and no other. */
  lemma AddThenSortQuantity(t: seq<Product>, p: Product)
    requires forall k :: 0 <= k < |t| && t[k].id == p.id ==> 0 <= t[k].orderedQty < Int32Max
    ensures QtyOf(AddThenSort(t, p), p.id) == QtyOf(t, p.id) + 1
    ensures forall id :: id != p.id ==> QtyOf(AddThenSort(t, p), id) == QtyOf(t, id)
  {
    AddOrMergeQuantity(t, p);
    forall id {
      SortByIdQuantity(AddOrMerge(t, p), id);
    }
  }

  // ------------------------------------------------------------- grouping

  /** One step of the grouping loop: fold line `p` into the accumulator map. */
  function GroupStep(acc: map<string, Product>, p: Product): map<string, Product>
  {
    if p.id in acc then
      acc[p.id := acc[p.id].(orderedQty := AddInt32(acc[p.id].orderedQty, p.orderedQty))]
    else
      acc[p.id := p]
  }

  /** The accumulator after folding the lines of `s` left to right. */
  function Grouped(s: seq<Product>): map<string, Product>
  {
    if s == [] then map[] else GroupStep(Grouped(s[..|s| - 1]), s[|s| - 1])
  }

  /**
   * The one line that grouping makes for `id`: the first line with that id,
   * carrying the (32-bit) sum of the quantities of all lines with that id.
   */
  ghost function Consolidated(s: seq<Product>, id: string): Product
    requires id in IdSet(s)
  {
    s[FindId(s, id).value].(orderedQty := ToInt32(QtyOf(s, id)))
  }

  /** `r` holds exactly one consolidated line per product id of `s`, in any order. */
  ghost predicate IsConsolidation(r: seq<Product>, s: seq<Product>)
  {
    && UniqueIds(r)
    && IdSet(r) == IdSet(s)
    && forall k :: 0 <= k < |r| ==> r[k].id in IdSet(s) && r[k] == Consolidated(s, r[k].id)
  }

  lemma {:induction false} FindIdAppend(s: seq<Product>, p: Product, id: string)
    ensures FindId(s + [p], id) ==
      if id in IdSet(s) then FindId(s, id) else if p.id == id then Some(|s|) else None
  {
    IdSetAppend(s, p);
    if s != [] {
      assert (s + [p])[1..] == s[1..] + [p];
      FindIdAppend(s[1..], p, id);
      assert forall k :: 1 <= k < |s| ==> s[k] == s[1..][k - 1];
    }
  }

  /** The grouping fold keeps, for each id, exactly the consolidated line. */
  lemma {:induction false} GroupedConsolidates(s: seq<Product>)
    ensures Grouped(s).Keys == IdSet(s)
    ensures forall id :: id in Grouped(s) ==> id in IdSet(s) && Grouped(s)[id] == Consolidated(s, id)
  {
    if s != [] {
      var u, p := s[..|s| - 1], s[|s| - 1];
      assert s == u + [p];
      GroupedConsolidates(u);
      IdSetAppend(u, p);
      forall id | id in Grouped(s) ensures id in IdSet(s) && Grouped(s)[id] == Consolidated(s, id) {
        GroupStepConsolidates(u, p, id);
      }
    }
  }

  /** One fold step turns the consolidation of `u` into that of `u + [p]`, id by id. */
  lemma GroupStepConsolidates(u: seq<Product>, p: Product, id: string)
    requires Grouped(u).Keys == IdSet(u)
    requires forall i :: i in Grouped(u) ==> i in IdSet(u) && Grouped(u)[i] == Consolidated(u, i)
    requires id in GroupStep(Grouped(u), p)
    ensures id in IdSet(u + [p]) && GroupStep(Grouped(u), p)[id] == Consolidated(u + [p], id)
  {
    IdSetAppend(u, p);
    FindIdAppend(u, p, id);
    QtyOfAppend(u, p, id);
    if id != p.id {
      GroupStepOther(u, p, id);
    } else if id in IdSet(u) {
      GroupStepMerge(u, p);
    } else {
      GroupStepFirst(u, p);
    }
  }

  /** Folding a line with another id leaves the line of `id` alone. */
  lemma GroupStepOther(u: seq<Product>, p: Product, id: string)
    requires id != p.id && id in IdSet(u)
    requires id in Grouped(u) && Grouped(u)[id] == Consolidated(u, id)
    requires FindId(u + [p], id) == FindId(u, id)
    requires QtyOf(u + [p], id) == QtyOf(u, id)
    requires id in IdSet(u + [p])
    ensures GroupStep(Grouped(u), p)[id] == Consolidated(u + [p], id)
  {
    var f := FindId(u, id).value;
    assert (u + [p])[f] == u[f];
  }

  /** Folding a further line of an id already seen adds its quantity, wrapping as Java does. */
  lemma GroupStepMerge(u: seq<Product>, p: Product)
    requires p.id in IdSet(u)
    requires p.id in Grouped(u) && Grouped(u)[p.id] == Consolidated(u, p.id)
    requires FindId(u + [p], p.id) == FindId(u, p.id)
    requires QtyOf(u + [p], p.id) == QtyOf(u, p.id) + p.orderedQty
    requires p.id in IdSet(u + [p])
    ensures GroupStep(Grouped(u), p)[p.id] == Consolidated(u + [p], p.id)
  {
    var f := FindId(u, p.id).value;
    assert (u + [p])[f] == u[f];
    ToInt32OfSum(QtyOf(u, p.id), p.orderedQty);
  }

  /** The first line of an id becomes its entry unchanged. */
  lemma GroupStepFirst(u: seq<Product>, p: Product)
    requires p.id !in Grouped(u) && p.id !in IdSet(u)
    requires FindId(u + [p], p.id) == Some(|u|)
    requires QtyOf(u + [p], p.id) == QtyOf(u, p.id) + p.orderedQty
    requires p.id in IdSet(u + [p])
    ensures GroupStep(Grouped(u), p)[p.id] == Consolidated(u + [p], p.id)
  {
    assert (u + [p])[|u|] == p;
  }

  /** Grouping lines that already have one line per id keeps exactly those lines. */
  lemma ConsolidatedOfUnique(s: seq<Product>, k: nat)
    requires UniqueIds(s) && k < |s|
    ensures s[k].id in IdSet(s) && Consolidated(s, s[k].id) == s[k]
  {
    QtyOfUnique(s, k);
    assert FindId(s, s[k].id) == Some(k);
  }

  /** A consolidation of lines with distinct ids is a rearrangement of them. */
  lemma ConsolidationOfUnique(r: seq<Product>, s: seq<Product>)
    requires UniqueIds(s) && IsConsolidation(r, s)
    ensures |r| == |s|
    ensures forall k :: 0 <= k < |r| ==> r[k] in s
    ensures forall k :: 0 <= k < |s| ==> s[k] in r
  {
    UniqueIdsCard(r);
    UniqueIdsCard(s);
    forall k | 0 <= k < |r| ensures r[k] in s {
      var j := FindId(s, r[k].id).value;
      ConsolidatedOfUnique(s, j);
    }
    forall k | 0 <= k < |s| ensures s[k] in r {
      ConsolidatedOfUnique(s, k);
      assert s[k].id in IdSet(r);
      var j :| 0 <= j < |r| && r[j].id == s[k].id;
    }
  }

}
