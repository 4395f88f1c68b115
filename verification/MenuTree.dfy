/** The public menu (cms/serializers.py, cms/views.py): a tree built over parent pointers that nothing keeps
    from being cyclic. */
module MenuTree {
  import opened Common
  import opened Sorting

  datatype Item = Item(id: nat, parent: Option<nat>, priority: nat, active: bool)

  datatype Tree = Node(id: nat, children: seq<Tree>)

  function ItemKey(r: Item): Key {
    (r.priority, r.id)
  }

  /** `id` is the primary key of the table. */
  predicate UniqueIds(rows: seq<Item>) {
    forall i, j :: 0 <= i < j < |rows| ==> rows[i].id != rows[j].id
  }

  /** The active rows under this parent, ordered by (priority, id). `None` selects the roots. */
  function ActiveUnder(rows: seq<Item>, parent: Option<nat>): seq<Item> {
    SortBy(Filter(rows, (r: Item) => r.active && r.parent == parent), ItemKey)
  }

  /* ---- Paths along parent pointers ----------------------------------------------------------------------------- */

  ghost predicate ChildOf(rows: seq<Item>, parent: nat, child: nat) {
    exists r :: r in rows && r.id == child && r.parent == Some(parent) && r.active
  }

  ghost predicate IsPath(rows: seq<Item>, p: seq<nat>) {
    p != [] && forall i :: 0 < i < |p| ==> ChildOf(rows, p[i - 1], p[i])
  }

  function Last(p: seq<nat>): nat
    requires p != []
  {
    p[|p| - 1]
  }

  ghost predicate Connects(rows: seq<Item>, p: seq<nat>, from: nat, to: nat) {
    IsPath(rows, p) && p[0] == from && Last(p) == to
  }

  /** The item is below itself through active items. */
  ghost predicate OnCycle(rows: seq<Item>, id: nat) {
    exists p :: Connects(rows, p, id, id) && |p| > 1
  }

  lemma OneRow(rows: seq<Item>, r: Item, r': Item)
    requires UniqueIds(rows) && r in rows && r' in rows && r.id == r'.id
    ensures r == r'
  {
  }

  /** Going up from one item there is only one way: of two paths to it, the shorter ends the longer. */
  lemma {:induction false} OneWayUp(rows: seq<Item>, p: seq<nat>, q: seq<nat>)
    requires UniqueIds(rows) && IsPath(rows, p) && IsPath(rows, q) && Last(p) == Last(q) && |p| <= |q|
    ensures q[|q| - |p|..] == p
  {
    if |p| > 1 {
      var p', q' := p[..|p| - 1], q[..|q| - 1];
      OneWayUp(rows, p', q');
      assert q'[|q'| - |p'|..] == q[|q| - |p|..|q| - 1];
    }
  }

  lemma RepeatIsCycle(rows: seq<Item>, p: seq<nat>, i: nat, j: nat)
    requires UniqueIds(rows) && IsPath(rows, p) && i < j < |p| && p[i] == p[j]
    ensures OnCycle(rows, p[0])
  {
    OneWayUp(rows, p[..i + 1], p[..j + 1]);
    assert p[..j + 1][j - i..][0] == p[..i + 1][0];
    assert Connects(rows, p[..j - i + 1], p[0], p[0]);
  }

  /** A path that starts off every cycle never comes back to an item. */
  lemma PathDistinct(rows: seq<Item>, p: seq<nat>)
    requires UniqueIds(rows) && IsPath(rows, p) && !OnCycle(rows, p[0])
    ensures Distinct(p)
  {
    forall i, j | 0 <= i < j < |p|
      ensures p[i] != p[j]
    {
      if p[i] == p[j] {
        RepeatIsCycle(rows, p, i, j);
      }
    }
  }

  function Ids(rows: seq<Item>): (ids: set<nat>)
    ensures |ids| <= |rows|
    ensures forall r :: r in rows ==> r.id in ids
  {
    if rows == [] then {} else {rows[0].id} + Ids(rows[1..])
  }

  lemma {:induction false} DistinctFits(p: seq<nat>, s: set<nat>)
    requires Distinct(p) && forall x :: x in p ==> x in s
    ensures |p| <= |s|
  {
    if p != [] {
      DistinctFits(p[1..], s - {p[0]});
    }
  }

  lemma PathBound(rows: seq<Item>, p: seq<nat>)
    requires UniqueIds(rows) && IsPath(rows, p) && !OnCycle(rows, p[0])
    ensures |p| <= |rows| + 1
  {
    PathDistinct(rows, p);
    forall x | x in p[1..]
      ensures x in Ids(rows)
    {
      var i :| 0 < i < |p| && p[i] == x;
      assert ChildOf(rows, p[i - 1], p[i]);
    }
    DistinctFits(p[1..], Ids(rows));
  }

  /* ---- The tree ------------------------------------------------------------------------------------------------ */

  lemma ActiveUnderMembers(rows: seq<Item>, parent: Option<nat>)
    ensures forall r :: r in ActiveUnder(rows, parent) <==> r in rows && r.active && r.parent == parent
    ensures IsSorted(ActiveUnder(rows, parent), ItemKey)
  {
    SortByMembers(Filter(rows, (r: Item) => r.active && r.parent == parent), ItemKey);
    SortBySorts(Filter(rows, (r: Item) => r.active && r.parent == parent), ItemKey);
  }

  lemma PathDown(rows: seq<Item>, p: seq<nat>, parent: nat)
    requires IsPath(rows, p) && Last(p) == parent
    ensures forall r :: r in ActiveUnder(rows, Some(parent)) ==> IsPath(rows, p + [r.id])
  {
    ActiveUnderMembers(rows, Some(parent));
  }

  /** MenuItemTreeSerializer on one item. `above` are the items already unfolded above it; they only show
      that the recursion ends. */
  function Build(rows: seq<Item>, id: nat, ghost above: seq<nat>): (t: Tree)
    requires UniqueIds(rows) && IsPath(rows, above + [id]) && !OnCycle(rows, (above + [id])[0])
    ensures t.id == id
    decreases |rows| + 1 - |above|
  {
    PathBound(rows, above + [id]);
    PathDown(rows, above + [id], id);
    var items := ActiveUnder(rows, Some(id));
    Node(id, seq(|items|, i requires 0 <= i < |items| =>
      assert (above + [id] + [items[i].id])[0] == (above + [id])[0]; Build(rows, items[i].id, above + [id])))
  }

  lemma RootOffCycles(rows: seq<Item>, r: Item)
    requires UniqueIds(rows) && r in rows && r.parent == None
    ensures !OnCycle(rows, r.id)
  {
    forall p | IsPath(rows, p) && |p| > 1
      ensures Last(p) != r.id
    {
      assert ChildOf(rows, p[|p| - 2], Last(p));
      var r' :| r' in rows && r'.id == Last(p) && r'.parent == Some(p[|p| - 2]) && r'.active;
      if r'.id == r.id {
        OneRow(rows, r, r');
      }
    }
  }

  /** menu_list: the trees of the active items without a parent. */
  function Menu(rows: seq<Item>): (trees: seq<Tree>)
    requires UniqueIds(rows)
  {
    var roots := ActiveUnder(rows, None);
    ActiveUnderMembers(rows, None);
    seq(|roots|, i requires 0 <= i < |roots| =>
      RootOffCycles(rows, roots[i]); Build(rows, roots[i].id, []))
  }

  /* ---- What the tree holds ------------------------------------------------------------------------------------- */

  function Flatten(t: Tree): seq<nat> {
    [t.id] + FlattenAll(t.children)
  }

  function FlattenAll(ts: seq<Tree>): seq<nat> {
    if ts == [] then [] else FlattenAll(ts[..|ts| - 1]) + Flatten(ts[|ts| - 1])
  }

  /** The items a visitor should see: active, and so is every item above them up to one without a parent. */
  ghost predicate Shown(rows: seq<Item>, id: nat) {
    exists r, p :: r in rows && r.active && r.parent == None && Connects(rows, p, r.id, id)
  }

  ghost predicate Reaches(rows: seq<Item>, from: nat, to: nat) {
    exists p :: Connects(rows, p, from, to)
  }

  /** Siblings are in the order of (priority, id), all the way down. */
  ghost predicate Ordered(rows: seq<Item>, ts: seq<Tree>)
    decreases ts
  {
    && (forall i, j :: 0 <= i < j < |ts| ==> Before(rows, ts[i].id, ts[j].id))
    && (forall t <- ts :: Ordered(rows, t.children))
  }

  ghost predicate Before(rows: seq<Item>, a: nat, b: nat) {
    exists r, r' ::
      && r in rows && r' in rows && r.id == a && r'.id == b
      && (r.priority < r'.priority || (r.priority == r'.priority && r.id < r'.id))
  }

  lemma {:induction false} InFlattenAll(ts: seq<Tree>, y: nat)
    ensures y in FlattenAll(ts) <==> exists i :: 0 <= i < |ts| && y in Flatten(ts[i])
  {
    if ts != [] {
      var n := |ts| - 1;
      InFlattenAll(ts[..n], y);
      assert forall i :: 0 <= i < n ==> ts[..n][i] == ts[i];
    }
  }

  lemma DistinctConcat(a: seq<nat>, b: seq<nat>)
    requires Distinct(a) && Distinct(b) && forall y :: y in a ==> y !in b
    ensures Distinct(a + b)
  {
    var s := a + b;
    forall i, j | 0 <= i < j < |s|
      ensures s[i] != s[j]
    {
      if i < |a| <= j {
        assert s[i] in a && s[j] in b;
      }
    }
  }

  /** Trees that repeat nothing and share nothing repeat nothing together. */
  lemma {:induction false} FlattenAllDistinct(ts: seq<Tree>)
    requires forall i :: 0 <= i < |ts| ==> Distinct(Flatten(ts[i]))
    requires forall i, j, y :: 0 <= i < j < |ts| && y in Flatten(ts[i]) ==> y !in Flatten(ts[j])
    ensures Distinct(FlattenAll(ts))
  {
    if ts != [] {
      var n := |ts| - 1;
      FlattenAllDistinct(ts[..n]);
      forall y | y in FlattenAll(ts[..n])
        ensures y !in Flatten(ts[n])
      {
        InFlattenAll(ts[..n], y);
      }
      DistinctConcat(FlattenAll(ts[..n]), Flatten(ts[n]));
    }
  }

  lemma ReachedFromAbove(rows: seq<Item>, id: nat, r: Item, y: nat)
    requires r in ActiveUnder(rows, Some(id)) && Reaches(rows, r.id, y)
    ensures Reaches(rows, id, y)
  {
    ActiveUnderMembers(rows, Some(id));
    var p :| Connects(rows, p, r.id, y);
    assert ChildOf(rows, id, r.id);
    assert Connects(rows, [id] + p, id, y);
  }

  /** Below an item lies the item itself and what lies below its active children. */
  lemma ReachesByChild(rows: seq<Item>, id: nat, y: nat)
    ensures Reaches(rows, id, y) <==>
            y == id || exists r :: r in ActiveUnder(rows, Some(id)) && Reaches(rows, r.id, y)
  {
    ActiveUnderMembers(rows, Some(id));
    assert Connects(rows, [id], id, id);
    if Reaches(rows, id, y) && y != id {
      var p :| Connects(rows, p, id, y);
      assert ChildOf(rows, p[0], p[1]);
      var r :| r in rows && r.id == p[1] && r.parent == Some(p[0]) && r.active;
      assert Connects(rows, p[1..], r.id, y);
      assert r in ActiveUnder(rows, Some(id)) && Reaches(rows, r.id, y);
    }
    forall r | r in ActiveUnder(rows, Some(id)) && Reaches(rows, r.id, y)
      ensures Reaches(rows, id, y)
    {
      ReachedFromAbove(rows, id, r, y);
    }
  }

  lemma {:induction false} BuildHolds(rows: seq<Item>, id: nat, above: seq<nat>, y: nat)
    requires UniqueIds(rows) && IsPath(rows, above + [id]) && !OnCycle(rows, (above + [id])[0])
    ensures y in Flatten(Build(rows, id, above)) <==> Reaches(rows, id, y)
    decreases |rows| + 1 - |above|
  {
    var path, items, t := above + [id], ActiveUnder(rows, Some(id)), Build(rows, id, above);
    PathBound(rows, path);
    PathDown(rows, path, id);
    forall i | 0 <= i < |items|
      ensures y in Flatten(t.children[i]) <==> Reaches(rows, items[i].id, y)
    {
      assert (path + [items[i].id])[0] == path[0];
      BuildHolds(rows, items[i].id, path, y);
    }
    InFlattenAll(t.children, y);
    ReachesByChild(rows, id, y);
  }

  /** Two siblings have nothing below them in common. */
  lemma SiblingsApart(rows: seq<Item>, parent: Option<nat>, r: Item, r': Item, y: nat)
    requires UniqueIds(rows) && r in rows && r' in rows && r.parent == r'.parent && r.id != r'.id
    requires r.active && r'.active && !OnCycle(rows, r.id) && !OnCycle(rows, r'.id)
    requires Reaches(rows, r.id, y)
    ensures !Reaches(rows, r'.id, y)
  {
    var p :| Connects(rows, p, r.id, y);
    forall q | IsPath(rows, q) && q[0] == r'.id
      ensures Last(q) != y
    {
      if Last(q) == y {
        if |p| <= |q| { SiblingCycle(rows, r, r', p, q); } else { SiblingCycle(rows, r', r, q, p); }
      }
    }
  }

  /** If a path from r to an item is the end of a path from its sibling r', then r' is on a cycle: its path
      climbs to the common parent first. */
  lemma SiblingCycle(rows: seq<Item>, r: Item, r': Item, p: seq<nat>, q: seq<nat>)
    requires UniqueIds(rows) && r in rows && r' in rows && r.parent == r'.parent && r.id != r'.id
    requires r'.active && IsPath(rows, p) && IsPath(rows, q) && p[0] == r.id && q[0] == r'.id
    requires Last(p) == Last(q) && |p| <= |q|
    ensures OnCycle(rows, r'.id)
  {
    OneWayUp(rows, p, q);
    var k := |q| - |p|;
    assert q[k] == q[k..][0] == r.id;
    assert ChildOf(rows, q[k - 1], q[k]);
    var s :| s in rows && s.id == r.id && s.parent == Some(q[k - 1]) && s.active;
    OneRow(rows, r, s);
    assert ChildOf(rows, q[k - 1], r'.id);
    assert Connects(rows, q[..k] + [r'.id], r'.id, r'.id);
  }

  lemma PathThrough(rows: seq<Item>, path: seq<nat>, r: Item, p: seq<nat>)
    requires IsPath(rows, path) && r in ActiveUnder(rows, Some(Last(path))) && IsPath(rows, p) && p[0] == r.id
    ensures IsPath(rows, path + p) && (path + p)[0] == path[0]
  {
    ActiveUnderMembers(rows, Some(Last(path)));
    assert ChildOf(rows, Last(path), r.id);
    forall i | 0 < i < |path + p|
      ensures ChildOf(rows, (path + p)[i - 1], (path + p)[i])
    {
      if i > |path| {
        assert ChildOf(rows, p[i - |path| - 1], p[i - |path|]);
      }
    }
  }

  lemma ChildOffCycles(rows: seq<Item>, path: seq<nat>, r: Item)
    requires UniqueIds(rows) && IsPath(rows, path) && !OnCycle(rows, path[0])
    requires r in ActiveUnder(rows, Some(Last(path)))
    ensures r in rows && r.active && r.parent == Some(Last(path)) && !OnCycle(rows, r.id)
  {
    ActiveUnderMembers(rows, Some(Last(path)));
    forall p | IsPath(rows, p) && |p| > 1 && p[0] == r.id
      ensures Last(p) != r.id
    {
      PathThrough(rows, path, r, p);
      PathDistinct(rows, path + p);
      assert (path + p)[|path|] == r.id && (path + p)[|path + p| - 1] == Last(p);
    }
  }

  lemma NotBelowItself(rows: seq<Item>, id: nat, above: seq<nat>, y: nat)
    requires UniqueIds(rows) && IsPath(rows, above + [id]) && !OnCycle(rows, (above + [id])[0])
    requires y in FlattenAll(Build(rows, id, above).children)
    ensures y != id
  {
    var path, items, t := above + [id], ActiveUnder(rows, Some(id)), Build(rows, id, above);
    PathBound(rows, path);
    PathDown(rows, path, id);
    InFlattenAll(t.children, y);
    var i :| 0 <= i < |items| && y in Flatten(t.children[i]);
    assert (path + [items[i].id])[0] == path[0];
    BuildHolds(rows, items[i].id, path, y);
    ChildBelow(rows, path, items[i], y);
  }

  lemma {:induction false} BuildDistinct(rows: seq<Item>, id: nat, above: seq<nat>)
    requires UniqueIds(rows) && IsPath(rows, above + [id]) && !OnCycle(rows, (above + [id])[0])
    ensures Distinct(Flatten(Build(rows, id, above)))
    decreases |rows| + 1 - |above|
  {
    var path, items, t := above + [id], ActiveUnder(rows, Some(id)), Build(rows, id, above);
    PathBound(rows, path);
    PathDown(rows, path, id);
    forall i | 0 <= i < |items|
      ensures Distinct(Flatten(t.children[i]))
    {
      assert (path + [items[i].id])[0] == path[0];
      BuildDistinct(rows, items[i].id, path);
    }
    forall i, j, y | 0 <= i < j < |items| && y in Flatten(t.children[i])
      ensures y !in Flatten(t.children[j])
    {
      SiblingTreesApart(rows, id, above, i, j, y);
    }
    FlattenAllDistinct(t.children);
    forall y | y in FlattenAll(t.children)
      ensures y != id
    {
      NotBelowItself(rows, id, above, y);
    }
    DistinctConcat([id], FlattenAll(t.children));
  }

  lemma SiblingTreesApart(rows: seq<Item>, id: nat, above: seq<nat>, i: nat, j: nat, y: nat)
    requires UniqueIds(rows) && IsPath(rows, above + [id]) && !OnCycle(rows, (above + [id])[0])
    requires i < j < |ActiveUnder(rows, Some(id))| && y in Flatten(Build(rows, id, above).children[i])
    ensures y !in Flatten(Build(rows, id, above).children[j])
  {
    var path, items := above + [id], ActiveUnder(rows, Some(id));
    PathDown(rows, path, id);
    assert (path + [items[i].id])[0] == path[0] == (path + [items[j].id])[0];
    BuildHolds(rows, items[i].id, path, y);
    BuildHolds(rows, items[j].id, path, y);
    ChildOffCycles(rows, path, items[i]);
    ChildOffCycles(rows, path, items[j]);
    SortedIdsDiffer(rows, Some(id), i, j);
    SiblingsApart(rows, Some(id), items[i], items[j], y);
  }

  /** Rows have distinct ids, so their keys are strictly increasing once sorted. */
  lemma SortedIdsDiffer(rows: seq<Item>, parent: Option<nat>, i: nat, j: nat)
    requires UniqueIds(rows) && i < j < |ActiveUnder(rows, parent)|
    ensures var items := ActiveUnder(rows, parent);
            items[i].id != items[j].id && Less(ItemKey(items[i]), ItemKey(items[j]))
  {
    var items, picked := ActiveUnder(rows, parent), Filter(rows, (r: Item) => r.active && r.parent == parent);
    ActiveUnderMembers(rows, parent);
    FilterUnique(rows, (r: Item) => r.active && r.parent == parent);
    SortBySorts(picked, ItemKey);
    SortedUnique(picked, i, j);
  }

  lemma {:induction false} FilterUnique(rows: seq<Item>, p: Item -> bool)
    requires UniqueIds(rows)
    ensures UniqueIds(Filter(rows, p))
  {
    if rows != [] {
      FilterUnique(rows[1..], p);
      assert forall r :: r in rows[1..] ==> r.id != rows[0].id;
    }
  }

  lemma SortedUnique(picked: seq<Item>, i: nat, j: nat)
    requires UniqueIds(picked) && i < j < |picked|
    ensures SortBy(picked, ItemKey)[i].id != SortBy(picked, ItemKey)[j].id
  {
    var sorted := SortBy(picked, ItemKey);
    SortBySorts(picked, ItemKey);
    if sorted[i].id == sorted[j].id {
      assert sorted[i] in multiset(picked) && sorted[j] in multiset(picked);
      OneRow(picked, sorted[i], sorted[j]);
      TwicePresent(sorted, i, j);
      OncePresent(picked, sorted[i]);
    }
  }

  lemma {:induction false} OncePresent(s: seq<Item>, r: Item)
    requires UniqueIds(s)
    ensures multiset(s)[r] <= 1
  {
    if s != [] {
      assert s == [s[0]] + s[1..];
      OncePresent(s[1..], r);
      assert s[0] !in s[1..];
    }
  }

  /** What lies below a child is not on the path that led to it. */
  lemma ChildBelow(rows: seq<Item>, path: seq<nat>, r: Item, y: nat)
    requires UniqueIds(rows) && IsPath(rows, path) && !OnCycle(rows, path[0])
    requires r in ActiveUnder(rows, Some(Last(path))) && Reaches(rows, r.id, y)
    ensures y != Last(path)
  {
    var p :| Connects(rows, p, r.id, y);
    PathThrough(rows, path, r, p);
    PathDistinct(rows, path + p);
    assert (path + p)[|path| - 1] == Last(path) && (path + p)[|path + p| - 1] == y;
  }

  /* ---- The menu as a whole ------------------------------------------------------------------------------------- */

  lemma MenuTrees(rows: seq<Item>, i: nat)
    requires UniqueIds(rows) && i < |Menu(rows)|
    ensures |Menu(rows)| == |ActiveUnder(rows, None)|
    ensures var r := ActiveUnder(rows, None)[i];
            r in rows && r.active && r.parent == None && !OnCycle(rows, r.id) && Menu(rows)[i] == Build(rows, r.id, [])
  {
    ActiveUnderMembers(rows, None);
    RootOffCycles(rows, ActiveUnder(rows, None)[i]);
  }

  lemma TreeShows(rows: seq<Item>, i: nat, y: nat)
    requires UniqueIds(rows) && i < |Menu(rows)| == |ActiveUnder(rows, None)|
    ensures y in Flatten(Menu(rows)[i]) <==> Reaches(rows, ActiveUnder(rows, None)[i].id, y)
  {
    var id := ActiveUnder(rows, None)[i].id;
    MenuTrees(rows, i);
    assert [] + [id] == [id];
    BuildHolds(rows, id, [], y);
  }

  /** For any parent pointers, cyclic ones included, the menu shows every item whose whole chain of ancestors is
      active and ends at a root, and no other item. */
  lemma MenuShows(rows: seq<Item>, y: nat)
    requires UniqueIds(rows)
    ensures y in FlattenAll(Menu(rows)) <==> Shown(rows, y)
  {
    var roots, trees := ActiveUnder(rows, None), Menu(rows);
    ActiveUnderMembers(rows, None);
    InFlattenAll(trees, y);
    forall i | 0 <= i < |trees|
      ensures y in Flatten(trees[i]) <==> Reaches(rows, roots[i].id, y)
    {
      TreeShows(rows, i, y);
    }
    if Shown(rows, y) {
      var r, p :| r in rows && r.active && r.parent == None && Connects(rows, p, r.id, y);
      assert r in roots && Reaches(rows, r.id, y);
    }
  }

  /** No item is shown twice. */
  lemma MenuDistinct(rows: seq<Item>)
    requires UniqueIds(rows)
    ensures Distinct(FlattenAll(Menu(rows)))
  {
    var roots, trees := ActiveUnder(rows, None), Menu(rows);
    forall i | 0 <= i < |trees|
      ensures Distinct(Flatten(trees[i]))
    {
      MenuTrees(rows, i);
      assert [] + [roots[i].id] == [roots[i].id];
      BuildDistinct(rows, roots[i].id, []);
    }
    forall i, j, y | 0 <= i < j < |trees| && y in Flatten(trees[i])
      ensures y !in Flatten(trees[j])
    {
      MenuTrees(rows, i);
      MenuTrees(rows, j);
      assert [] + [roots[i].id] == [roots[i].id] && [] + [roots[j].id] == [roots[j].id];
      BuildHolds(rows, roots[i].id, [], y);
      BuildHolds(rows, roots[j].id, [], y);
      SortedIdsDiffer(rows, None, i, j);
      SiblingsApart(rows, None, roots[i], roots[j], y);
    }
    FlattenAllDistinct(trees);
  }

  lemma {:induction false} BuildOrdered(rows: seq<Item>, id: nat, above: seq<nat>)
    requires UniqueIds(rows) && IsPath(rows, above + [id]) && !OnCycle(rows, (above + [id])[0])
    ensures Ordered(rows, Build(rows, id, above).children)
    decreases |rows| + 1 - |above|
  {
    var path, items, t := above + [id], ActiveUnder(rows, Some(id)), Build(rows, id, above);
    PathBound(rows, path);
    PathDown(rows, path, id);
    ActiveUnderMembers(rows, Some(id));
    forall i, j | 0 <= i < j < |items|
      ensures Before(rows, t.children[i].id, t.children[j].id)
    {
      SortedIdsDiffer(rows, Some(id), i, j);
      assert items[i] in rows && items[j] in rows;
    }
    forall i | 0 <= i < |items|
      ensures Ordered(rows, t.children[i].children)
    {
      assert (path + [items[i].id])[0] == path[0];
      BuildOrdered(rows, items[i].id, path);
    }
  }

  /** At every level siblings stand in the order of (priority, id). */
  lemma MenuOrdered(rows: seq<Item>)
    requires UniqueIds(rows)
    ensures Ordered(rows, Menu(rows))
  {
    var roots, trees := ActiveUnder(rows, None), Menu(rows);
    ActiveUnderMembers(rows, None);
    forall i, j | 0 <= i < j < |trees|
      ensures Before(rows, trees[i].id, trees[j].id)
    {
      SortedIdsDiffer(rows, None, i, j);
      assert roots[i] in rows && roots[j] in rows;
    }
    forall i | 0 <= i < |trees|
      ensures Ordered(rows, trees[i].children)
    {
      MenuTrees(rows, i);
      assert [] + [roots[i].id] == [roots[i].id];
      BuildOrdered(rows, roots[i].id, []);
    }
  }

  /* ---- Which items can be serialized at all -------------------------------------------------------------------- */

  /** The tree is what the serializer's recursion must return for this item. */
  ghost predicate Unfolds(rows: seq<Item>, id: nat, t: Tree)
    decreases t
  {
    var items := ActiveUnder(rows, Some(id));
    && t.id == id
    && |t.children| == |items|
    && forall i :: 0 <= i < |items| ==> Unfolds(rows, items[i].id, t.children[i])
  }

  lemma {:induction false} BuildUnfolds(rows: seq<Item>, id: nat, above: seq<nat>)
    requires UniqueIds(rows) && IsPath(rows, above + [id]) && !OnCycle(rows, (above + [id])[0])
    ensures Unfolds(rows, id, Build(rows, id, above))
    decreases |rows| + 1 - |above|
  {
    var path, items := above + [id], ActiveUnder(rows, Some(id));
    PathBound(rows, path);
    PathDown(rows, path, id);
    forall i | 0 <= i < |items|
      ensures Unfolds(rows, items[i].id, Build(rows, id, above).children[i])
    {
      assert (path + [items[i].id])[0] == path[0];
      BuildUnfolds(rows, items[i].id, path);
    }
  }

  function Height(t: Tree): nat {
    1 + MaxHeight(t.children)
  }

  function MaxHeight(ts: seq<Tree>): (h: nat)
    ensures forall i :: 0 <= i < |ts| ==> Height(ts[i]) <= h
  {
    if ts == [] then 0
    else
      var h, rest := Height(ts[0]), MaxHeight(ts[1..]);
      if h > rest then h else rest
  }

  /** A tree for an item holds, lower down, a tree for every item on a path below it. */
  lemma ChildAt(rows: seq<Item>, id: nat, child: nat) returns (i: nat)
    requires ChildOf(rows, id, child)
    ensures i < |ActiveUnder(rows, Some(id))| && ActiveUnder(rows, Some(id))[i].id == child
  {
    ActiveUnderMembers(rows, Some(id));
    var r :| r in rows && r.id == child && r.parent == Some(id) && r.active;
    assert r in ActiveUnder(rows, Some(id));
    i :| 0 <= i < |ActiveUnder(rows, Some(id))| && ActiveUnder(rows, Some(id))[i] == r;
  }

  lemma {:induction false} SubtreeAlong(rows: seq<Item>, p: seq<nat>, t: Tree) returns (t': Tree)
    requires IsPath(rows, p) && Unfolds(rows, p[0], t)
    ensures Unfolds(rows, Last(p), t') && Height(t') + |p| - 1 <= Height(t)
    decreases |p|
  {
    if |p| == 1 {
      t' := t;
    } else {
      hide ActiveUnder, ChildOf;
      var i := ChildAt(rows, p[0], p[1]);
      t' := SubtreeAlong(rows, p[1..], t.children[i]);
    }
  }

  lemma {:induction false} NoTreeOnCycle(rows: seq<Item>, id: nat, t: Tree)
    requires OnCycle(rows, id)
    ensures !Unfolds(rows, id, t)
    decreases Height(t)
  {
    if Unfolds(rows, id, t) {
      var p :| Connects(rows, p, id, id) && |p| > 1;
      var t' := SubtreeAlong(rows, p, t);
      NoTreeOnCycle(rows, id, t');
    }
  }

  /** The recursion has a result for an item exactly when the item is not below itself. */
  lemma TreeExistsOffCycles(rows: seq<Item>, id: nat)
    requires UniqueIds(rows)
    ensures (exists t :: Unfolds(rows, id, t)) <==> !OnCycle(rows, id)
  {
    if OnCycle(rows, id) {
      forall t
        ensures !Unfolds(rows, id, t)
      {
        NoTreeOnCycle(rows, id, t);
      }
    } else {
      assert [] + [id] == [id];
      BuildUnfolds(rows, id, []);
      assert Unfolds(rows, id, Build(rows, id, []));
    }
  }
}
