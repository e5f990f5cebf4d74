/**
  Grouping property names by prefix into the tree that proof search splits on.
 */
module PrefixTree {
  import opened ChunkNames

  datatype Tree = Name(name: string) | Group(children: seq<Tree>)

  /** A name with what is left of its chunks. */
  datatype Item = Item(chunks: seq<string>, name: string)

  datatype Bucket = Bucket(prefix: string, items: seq<Item>)

  predicate HasChunks(items: seq<Item>) {
    forall i :: 0 <= i < |items| ==> |items[i].chunks| > 0
  }

  // ------------------------------------------------------- the tree meant

  /** The names that have one chunk left, in order. */
  function Singles(items: seq<Item>): seq<Tree> {
    if items == [] then []
    else
      var i := items[|items| - 1];
      Singles(items[..|items| - 1]) + if |i.chunks| == 1 then [Name(i.name)] else []
  }

  /** The first chunks of the others, each once, in order of first appearance. */
  function Firsts(items: seq<Item>): (ps: seq<string>)
    ensures forall j, k :: 0 <= j < k < |ps| ==> ps[j] != ps[k]
  {
    if items == [] then []
    else
      var i := items[|items| - 1];
      var ps := Firsts(items[..|items| - 1]);
      if |i.chunks| > 1 && i.chunks[0] !in ps then ps + [i.chunks[0]] else ps
  }

  /** What is left of the items that start with a prefix and go on, in order. */
  function Under(items: seq<Item>, prefix: string): seq<Item> {
    if items == [] then []
    else
      var i := items[|items| - 1];
      Under(items[..|items| - 1], prefix)
      + if |i.chunks| > 1 && i.chunks[0] == prefix then [Item(i.chunks[1..], i.name)] else []
  }

  /** Used-up names come first, then one subtree for each prefix, built the same way. */
  predicate IsGrouping(items: seq<Item>, ts: seq<Tree>)
    decreases ts
  {
    var n := |Singles(items)|;
    && |ts| == n + |Firsts(items)| && ts[..n] == Singles(items)
    && forall k :: 0 <= k < |Firsts(items)| ==>
                     ts[n + k].Group? && IsGrouping(Under(items, Firsts(items)[k]), ts[n + k].children)
  }

  function BucketsOf(items: seq<Item>): (bs: seq<Bucket>)
    ensures |bs| == |Firsts(items)|
    ensures forall k :: 0 <= k < |bs| ==> bs[k] == Bucket(Firsts(items)[k], Under(items, Firsts(items)[k]))
  {
    seq(|Firsts(items)|, k requires 0 <= k < |Firsts(items)| =>
      Bucket(Firsts(items)[k], Under(items, Firsts(items)[k])))
  }

  lemma {:induction false} UnderOther(items: seq<Item>, prefix: string)
    ensures Under(items, prefix) == [] <==> prefix !in Firsts(items)
  {
    if items != [] { UnderOther(items[..|items| - 1], prefix); }
  }

  lemma {:induction false} UnderHasChunks(items: seq<Item>, prefix: string)
    requires HasChunks(items)
    ensures HasChunks(Under(items, prefix))
  {
    if items != [] { UnderHasChunks(items[..|items| - 1], prefix); }
  }

  /** Chunks left in all items: what the recursion uses up. */
  function Weight(items: seq<Item>): nat {
    if items == [] then 0 else Weight(items[..|items| - 1]) + |items[|items| - 1].chunks|
  }

  lemma {:induction false} UnderIsLighter(items: seq<Item>, prefix: string)
    ensures Weight(Under(items, prefix)) + |Under(items, prefix)| <= Weight(items)
  {
    if items != [] {
      var all := items[..|items| - 1];
      var i := items[|items| - 1];
      UnderIsLighter(all, prefix);
      if |i.chunks| > 1 && i.chunks[0] == prefix {
        assert Under(items, prefix)[..|Under(all, prefix)|] == Under(all, prefix);
      } else {
        assert Under(items, prefix) == Under(all, prefix);
      }
    }
  }

  lemma NoItems()
    ensures Singles([]) == [] && BucketsOf([]) == []
  {
  }

  lemma UnderGrows(items: seq<Item>, i: Item, prefix: string)
    ensures Under(items + [i], prefix)
         == if |i.chunks| > 1 && i.chunks[0] == prefix then Under(items, prefix) + [Item(i.chunks[1..], i.name)]
            else Under(items, prefix)
  {
    assert (items + [i])[..|items|] == items;
  }

  lemma FirstsGrow(items: seq<Item>, i: Item)
    ensures Firsts(items + [i])
         == if |i.chunks| > 1 && i.chunks[0] !in Firsts(items) then Firsts(items) + [i.chunks[0]] else Firsts(items)
    ensures Singles(items + [i])
         == if |i.chunks| == 1 then Singles(items) + [Name(i.name)] else Singles(items)
  {
    assert (items + [i])[..|items|] == items;
  }

  /** Position k holds the prefix, or it is new and k is -1. */
  predicate IsPlace(ps: seq<string>, k: int, prefix: string) {
    if 0 <= k < |ps| then ps[k] == prefix else k == -1 && prefix !in ps
  }

  /** One more item goes into the bucket of its first chunk and no other. */
  lemma OldBuckets(items: seq<Item>, i: Item, k: int, j: nat)
    requires |i.chunks| > 0 && IsPlace(Firsts(items), k, i.chunks[0]) && j < |Firsts(items)|
    ensures Under(items + [i], Firsts(items)[j])
         == if |i.chunks| > 1 && j == k then Under(items, Firsts(items)[j]) + [Item(i.chunks[1..], i.name)]
            else Under(items, Firsts(items)[j])
  {
    hide Under;
    UnderGrows(items, i, Firsts(items)[j]);
  }

  /** What one more item adds to the buckets. */
  lemma OneMoreItem(items: seq<Item>, i: Item, k: int)
    requires |i.chunks| > 0 && IsPlace(Firsts(items), k, i.chunks[0])
    ensures |i.chunks| == 1 ==>
              Singles(items + [i]) == Singles(items) + [Name(i.name)] && BucketsOf(items + [i]) == BucketsOf(items)
    ensures |i.chunks| > 1 ==>
              && Singles(items + [i]) == Singles(items)
              && BucketsOf(items + [i]) == Added(BucketsOf(items), k, i)
  {
    hide Singles, Firsts, Under;
    FirstsGrow(items, i);
    forall j | 0 <= j < |Firsts(items)|
      ensures Under(items + [i], Firsts(items)[j])
           == if |i.chunks| > 1 && j == k then Under(items, Firsts(items)[j]) + [Item(i.chunks[1..], i.name)]
              else Under(items, Firsts(items)[j])
    {
      OldBuckets(items, i, k, j);
    }
    if |i.chunks| > 1 && k < 0 { NewBucket(items, i); }
  }

  lemma NewBucket(items: seq<Item>, i: Item)
    requires |i.chunks| > 1 && i.chunks[0] !in Firsts(items)
    ensures Under(items + [i], i.chunks[0]) == [Item(i.chunks[1..], i.name)]
  {
    hide Under, Firsts;
    UnderGrows(items, i, i.chunks[0]);
    UnderOther(items, i.chunks[0]);
  }

  /** The buckets with an item put into bucket k, or into a new one. */
  function Added(bs: seq<Bucket>, k: int, i: Item): seq<Bucket>
    requires -1 <= k < |bs| && |i.chunks| > 1
  {
    var rest := Item(i.chunks[1..], i.name);
    if k < 0 then bs + [Bucket(i.chunks[0], [rest])] else bs[k := Bucket(bs[k].prefix, bs[k].items + [rest])]
  }

  // ---------------------------------------------------------------- grouping

  /** The bucket of a prefix, in order of insertion. */
  method Find(bs: seq<Bucket>, prefix: string) returns (k: int)
    ensures -1 <= k < |bs|
    ensures k >= 0 ==> bs[k].prefix == prefix
    ensures k < 0 ==> forall j :: 0 <= j < |bs| ==> bs[j].prefix != prefix
  {
    k := 0;
    while k < |bs|
      invariant 0 <= k <= |bs| && forall j :: 0 <= j < k ==> bs[j].prefix != prefix
    {
      if bs[k].prefix == prefix { return; }
      k := k + 1;
    }
    k := -1;
  }

  /** Fills the buckets, then groups each of them. */
  method GroupItems(props: seq<Item>) returns (done: seq<Tree>)
    requires HasChunks(props)
    ensures IsGrouping(props, done)
    decreases Weight(props), 1
  {
    hide Weight;
    var buckets: seq<Bucket> := [];
    done := [];
    for i := 0 to |props|
      invariant done == Singles(props[..i]) && buckets == BucketsOf(props[..i])
    {
      hide Singles, Firsts, Under;
      var k := Find(buckets, props[i].chunks[0]);
      OneMoreItem(props[..i], props[i], k);
      assert props[..i + 1] == props[..i] + [props[i]];
      if |props[i].chunks| == 1 {
        done := done + [Name(props[i].name)];
      } else {
        buckets := Added(buckets, k, props[i]);
      }
    }
    assert props[..|props|] == props;
    done := AddGroups(done, buckets, props);
  }

  /** Appends the subtree of every bucket. */
  method AddGroups(first: seq<Tree>, buckets: seq<Bucket>, ghost props: seq<Item>) returns (done: seq<Tree>)
    requires HasChunks(props) && first == Singles(props) && buckets == BucketsOf(props)
    ensures IsGrouping(props, done)
    decreases Weight(props), 0
  {
    hide Singles, Firsts, Under, Weight;
    done := first;
    ghost var groups: seq<Tree> := [];
    for k := 0 to |buckets|
      invariant |groups| == k && done == first + groups
      invariant forall j :: 0 <= j < k ==> groups[j].Group? && IsGrouping(buckets[j].items, groups[j].children)
    {
      UnderOther(props, buckets[k].prefix);
      UnderHasChunks(props, buckets[k].prefix);
      UnderIsLighter(props, buckets[k].prefix);
      var sub := GroupItems(buckets[k].items);
      done, groups := done + [Group(sub)], groups + [Group(sub)];
    }
    assert done[..|first|] == first;
  }

  datatype Option<T> = None | Some(value: T)

  /** Cuts every name into chunks and groups them. None stands for the exception raised for a name without
      chunks. */
  method SplitByPrefixes(names: seq<string>) returns (tree: Option<seq<Tree>>)
    ensures tree.None? <==> "" in names
    ensures tree.Some? ==> IsGrouping(Items(names), tree.value) && Leaves(tree.value) == multiset(names)
  {
    var items := Items(names);
    ChunksOfAll(names);
    if exists i :: 0 <= i < |items| && items[i].chunks == [] { return None; }
    var done := GroupItems(items);
    GroupingKeepsNames(items, done);
    NamesOfAll(items, names);
    tree := Some(done);
  }

  function Items(names: seq<string>): (items: seq<Item>)
    ensures |items| == |names| && forall i :: 0 <= i < |items| ==> items[i] == Item(ChunkName(names[i]), names[i])
  {
    seq(|names|, i requires 0 <= i < |names| => Item(ChunkName(names[i]), names[i]))
  }

  lemma ChunksOfAll(names: seq<string>)
    ensures forall i :: 0 <= i < |names| ==> (Items(names)[i].chunks == [] <==> names[i] == "")
  {
    forall i | 0 <= i < |names| ensures Items(names)[i].chunks == [] <==> names[i] == "" {
      ChunksJoin(names[i]);
    }
  }

  // ------------------------------------------------- no name lost or made up

  function Leaves(ts: seq<Tree>): multiset<string> {
    if ts == [] then multiset{}
    else LeavesOf(ts[0]) + Leaves(ts[1..])
  }

  function LeavesOf(t: Tree): multiset<string> {
    match t case Name(n) => multiset{n} case Group(children) => Leaves(children)
  }

  function Names(items: seq<Item>): multiset<string> {
    if items == [] then multiset{} else Names(items[..|items| - 1]) + multiset{items[|items| - 1].name}
  }

  function BucketNames(bs: seq<Bucket>): multiset<string> {
    if bs == [] then multiset{} else BucketNames(bs[..|bs| - 1]) + Names(bs[|bs| - 1].items)
  }

  lemma {:induction false} LeavesAppend(ts: seq<Tree>, t: Tree)
    ensures Leaves(ts + [t]) == Leaves(ts) + LeavesOf(t)
  {
    if ts == [] {
      assert Leaves([]) == multiset{};
      assert ([] + [t])[1..] == [];
      assert [] + [t] == [t];
    } else {
      assert (ts + [t])[1..] == ts[1..] + [t];
      LeavesAppend(ts[1..], t);
    }
  }

  lemma ItemNames(items: seq<Item>, i: Item)
    ensures Names(items + [i]) == Names(items) + multiset{i.name}
  {
    assert (items + [i])[..|items|] == items;
  }

  lemma OneName(i: Item)
    ensures Names([i]) == multiset{i.name}
  {
    assert [i][..0] == [] && Names([]) == multiset{};
  }

  lemma {:induction false} BucketGrown(bs: seq<Bucket>, k: nat, i: Item)
    requires k < |bs|
    ensures BucketNames(bs[k := Bucket(bs[k].prefix, bs[k].items + [i])]) == BucketNames(bs) + multiset{i.name}
  {
    hide Names;
    var bs' := bs[k := Bucket(bs[k].prefix, bs[k].items + [i])];
    if k == |bs| - 1 {
      assert bs'[..|bs| - 1] == bs[..|bs| - 1];
      ItemNames(bs[k].items, i);
    } else {
      BucketGrown(bs[..|bs| - 1], k, i);
      assert bs'[..|bs| - 1] == bs[..|bs| - 1][k := Bucket(bs[k].prefix, bs[k].items + [i])];
    }
  }

  lemma AddedNames(bs: seq<Bucket>, k: int, i: Item)
    requires -1 <= k < |bs| && |i.chunks| > 1
    ensures BucketNames(Added(bs, k, i)) == BucketNames(bs) + multiset{i.name}
  {
    hide Names;
    var rest := Item(i.chunks[1..], i.name);
    if k < 0 {
      var b := Bucket(i.chunks[0], [rest]);
      assert (bs + [b])[..|bs|] == bs;
      OneName(rest);
    } else {
      BucketGrown(bs, k, rest);
    }
  }

  /** Every item is among the singles or in a bucket. */
  lemma {:induction false} BucketsKeepNames(items: seq<Item>)
    requires HasChunks(items)
    ensures Leaves(Singles(items)) + BucketNames(BucketsOf(items)) == Names(items)
    decreases |items|
  {
    if items == [] {
      NoItems();
    } else {
      hide Singles, Firsts, Under, BucketNames, BucketsOf, Leaves, Names;
      var before, i := items[..|items| - 1], items[|items| - 1];
      BucketsKeepNames(before);
      OneMoreKept(before, i);
      LastApart(items);
    }
  }

  lemma OneMoreKept(before: seq<Item>, i: Item)
    requires |i.chunks| > 0
    requires Leaves(Singles(before)) + BucketNames(BucketsOf(before)) == Names(before)
    ensures Leaves(Singles(before + [i])) + BucketNames(BucketsOf(before + [i])) == Names(before + [i])
  {
    hide Singles, Firsts, Under, BucketNames, Leaves, LeavesOf, Names, Added;
    var k := -1;
    if i.chunks[0] in Firsts(before) {
      k :| 0 <= k < |Firsts(before)| && Firsts(before)[k] == i.chunks[0];
    }
    OneMoreItem(before, i, k);
    ItemNames(before, i);
    if |i.chunks| == 1 {
      LeavesAppend(Singles(before), Name(i.name));
      NameLeaf(i.name);
    } else {
      AddedNames(BucketsOf(before), k, i);
    }
  }

  lemma NameLeaf(n: string)
    ensures LeavesOf(Name(n)) == multiset{n}
  {
  }

  /** The leaves of the tree are the names, as often as they were given. */
  lemma {:induction false} GroupingKeepsNames(items: seq<Item>, ts: seq<Tree>)
    requires HasChunks(items) && IsGrouping(items, ts)
    ensures Leaves(ts) == Names(items)
    decreases ts, 1
  {
    hide Singles, Firsts, Under, BucketNames, Leaves, Names, IsGrouping;
    assert |ts| == |Singles(items)| + |Firsts(items)| by { GroupingSize(items, ts); }
    GroupsKeepNames(items, ts, |Firsts(items)|);
    assert ts[..|ts|] == ts && BucketsOf(items)[..|Firsts(items)|] == BucketsOf(items);
    BucketsKeepNames(items);
  }

  lemma GroupingSize(items: seq<Item>, ts: seq<Tree>)
    requires IsGrouping(items, ts)
    ensures |ts| == |Singles(items)| + |Firsts(items)|
  {
  }

  lemma {:induction false} GroupsKeepNames(items: seq<Item>, ts: seq<Tree>, j: nat)
    requires HasChunks(items) && IsGrouping(items, ts) && j <= |Firsts(items)|
    ensures Leaves(ts[..|Singles(items)| + j]) == Leaves(Singles(items)) + BucketNames(BucketsOf(items)[..j])
    decreases ts, 0, j
  {
    hide Singles, Firsts, Under, Leaves, LeavesOf, Names;
    var n, bs := |Singles(items)|, BucketsOf(items);
    if j == 0 {
      assert bs[..0] == [] && ts[..n + 0] == Singles(items);
    } else {
      var k := j - 1;
      GroupsKeepNames(items, ts, k);
      UnderHasChunks(items, Firsts(items)[k]);
      GroupingKeepsNames(bs[k].items, ts[n + k].children);
      GroupLeaves(ts[n + k]);
      LeavesAppend(ts[..n + k], ts[n + k]);
      assert ts[..n + j] == ts[..n + k] + [ts[n + k]];
      assert bs[..j][..k] == bs[..k] && bs[..j][k] == bs[k];
    }
  }

  lemma GroupLeaves(t: Tree)
    requires t.Group?
    ensures LeavesOf(t) == Leaves(t.children)
  {
  }

  lemma {:induction false} NamesOfAll(items: seq<Item>, names: seq<string>)
    requires |items| == |names| && forall i :: 0 <= i < |items| ==> items[i].name == names[i]
    ensures Names(items) == multiset(names)
    decreases |names|
  {
    if names != [] {
      var last := |names| - 1;
      NamesOfAll(items[..last], names[..last]);
      WithoutLast(names);
    }
  }

  lemma WithoutLast<T>(s: seq<T>)
    requires s != []
    ensures multiset(s) == multiset(s[..|s| - 1]) + multiset{s[|s| - 1]}
  {
    LastApart(s);
  }

  lemma LastApart<T>(s: seq<T>)
    requires s != []
    ensures s == s[..|s| - 1] + [s[|s| - 1]]
  {
  }

  lemma TwoItems(x: Item, y: Item)
    requires |x.chunks| == |y.chunks| == 1
    ensures Singles([x, y]) == [Name(x.name), Name(y.name)] && BucketsOf([x, y]) == []
  {
    hide Singles, Firsts, Under, Added;
    NoItems();
    assert [] + [x] == [x] && [x] + [y] == [x, y];
    OneMoreItem([], x, -1);
    OneMoreItem([x], y, -1);
  }

  lemma TwoInBucket(x: Item, y: Item, b: Item)
    requires |x.chunks| > 1 && |y.chunks| > 1 && x.chunks[0] == y.chunks[0] && |b.chunks| == 1
    ensures Singles([x, y, b]) == [Name(b.name)]
    ensures BucketsOf([x, y, b])
         == [Bucket(x.chunks[0], [Item(x.chunks[1..], x.name), Item(y.chunks[1..], y.name)])]
  {
    hide Singles, Firsts, Under;
    NoItems();
    assert [] + [x] == [x] && [x] + [y] == [x, y] && [x, y] + [b] == [x, y, b];
    var rx, ry := Item(x.chunks[1..], x.name), Item(y.chunks[1..], y.name);
    OneMoreItem([], x, -1);
    assert BucketsOf([x]) == [Bucket(x.chunks[0], [rx])];
    OneMoreItem([x], y, 0);
    assert BucketsOf([x, y]) == [Bucket(x.chunks[0], [rx] + [ry])];
    assert [rx] + [ry] == [rx, ry];
    OneMoreItem([x, y], b, if b.chunks[0] == x.chunks[0] then 0 else -1);
  }

  lemma ShortName(a: char, b: char)
    requires !IsSeparator(a) && !IsSeparator(b)
    ensures ChunkName([a]) == [[a]] && ChunkName([a, '_', b]) == [[a], [b]]
  {
    var rest := ['_', b];
    assert TextLength([a][1..]) == 0 && [a][..1] == [a] && [a][1..] == "" && Opened("") == [];
    assert [a, '_', b][1..] == rest && TextLength(rest) == 0 && [a, '_', b][..1] == [a];
    assert rest[1..] == [b] && TextLength([b][1..]) == 0 && TextLength([b]) == 1 && ChunkEnd(rest) == 2;
    assert rest[2..] == "" && FirstChunk(rest) == [b] && Opened(rest) == [[b]] + Opened("");
  }

  /** The names of the original's own example: the single name comes first, not last as its comment says. */
  lemma SingleNamesFirst(ts: seq<Tree>)
    requires IsGrouping(Items(["a_x", "a_y", "b"]), ts)
    ensures ts == [Name("b"), Group([Name("a_x"), Name("a_y")])]
  {
    hide Singles, Firsts, Under, ChunkName, IsGrouping;
    ShortName('a', 'x');
    ShortName('a', 'y');
    ShortName('b', 'x');
    assert Items(["a_x", "a_y", "b"]) == [Item(["a", "x"], "a_x"), Item(["a", "y"], "a_y"), Item(["b"], "b")];
    GroupedExample(ts);
  }

  lemma GroupedExample(ts: seq<Tree>)
    requires IsGrouping([Item(["a", "x"], "a_x"), Item(["a", "y"], "a_y"), Item(["b"], "b")], ts)
    ensures ts == [Name("b"), Group([Name("a_x"), Name("a_y")])]
  {
    hide Singles, Firsts, Under;
    var x, y, b := Item(["a", "x"], "a_x"), Item(["a", "y"], "a_y"), Item(["b"], "b");
    TwoInBucket(x, y, b);
    var x', y' := Item(["x"], "a_x"), Item(["y"], "a_y");
    TwoItems(x', y');
    assert ["a", "x"][1..] == ["x"] && ["a", "y"][1..] == ["y"];
    assert Under([x, y, b], Firsts([x, y, b])[0]) == BucketsOf([x, y, b])[0].items == [x', y'];
    assert IsGrouping([x', y'], ts[1].children);
    assert |BucketsOf([x', y'])| == 0;
    assert ts[1].children[..2] == ts[1].children && ts[..1] == [Name("b")];
  }
}
