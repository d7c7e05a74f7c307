/** The split form of a plan (cfg_metakv_util.go): its bytes in numbered chunks, one child each. */
module SplitPlan {
  import opened Common
  import Text

  const MAX_SIZE_PER_KEY := 100000
  const SPLIT_PLAN_KEY_SUFFIX := "-$#$"

  type Bytes = seq<bv8>

  /** A child as metakv lists it. */
  datatype KVEntry = KVEntry(path: string, value: Bytes)

  // ---------------------------------------------------------------- chunks

  function Chunks(val: Bytes): (chunks: seq<Bytes>) {
    if val == [] then []
    else if |val| > MAX_SIZE_PER_KEY then [val[..MAX_SIZE_PER_KEY]] + Chunks(val[MAX_SIZE_PER_KEY..])
    else [val]
  }

  function Concat(chunks: seq<Bytes>): (val: Bytes) {
    if chunks == [] then [] else chunks[0] + Concat(chunks[1..])
  }

  /** The chunks put together are the value; all are full but the last, which is not empty; their
      number is the length over the chunk size, rounded up. */
  lemma {:induction false} ChunksOf(val: Bytes)
    ensures Concat(Chunks(val)) == val
    ensures forall i | 0 <= i < |Chunks(val)| :: 0 < |Chunks(val)[i]| <= MAX_SIZE_PER_KEY
    ensures forall i | 0 <= i < |Chunks(val)| - 1 :: |Chunks(val)[i]| == MAX_SIZE_PER_KEY
    ensures |Chunks(val)| == (|val| + MAX_SIZE_PER_KEY - 1) / MAX_SIZE_PER_KEY
    decreases |val|
  {
    if |val| > MAX_SIZE_PER_KEY {
      var rest := val[MAX_SIZE_PER_KEY..];
      ChunksOf(rest);
      var chunks := Chunks(val);
      assert chunks[1..] == Chunks(rest);
      assert val == val[..MAX_SIZE_PER_KEY] + rest;
      assert forall i | 1 <= i < |chunks| :: chunks[i] == Chunks(rest)[i - 1];
    } else if val != [] {
      assert Chunks(val)[1..] == [];
    }
  }

  // ---------------------------------------------------------------- paths

  function ChildPath(path: string, id: nat): (p: string) {
    path + Text.Itoa(id) + SPLIT_PLAN_KEY_SUFFIX
  }

  predicate HasSuffix(path: string) {
    |path| >= 4 && path[|path| - 4..] == SPLIT_PLAN_KEY_SUFFIX
  }

  /** The position after the last slash, or zero. */
  function AfterSlash(path: string): (n: nat)
    ensures n <= |path| && (n > 0 ==> path[n - 1] == '/') && '/' !in path[n..]
  {
    if path == "" then 0
    else if path[|path| - 1] == '/' then |path|
    else
      var n := AfterSlash(path[..|path| - 1]);
      assert path[n..] == path[..|path| - 1][n..] + [path[|path| - 1]];
      n
  }

  /** The number in a child's path, between its last slash and the suffix. */
  function IdOf(path: string): (id: Option<int>)
    requires HasSuffix(path)
  {
    var n := AfterSlash(path);
    assert n <= |path| - 4 by {
      SuffixHasNoSlash(path, n);
    }
    Text.Atoi(path[n..|path| - 4])
  }

  lemma SuffixHasNoSlash(path: string, n: nat)
    requires HasSuffix(path) && n <= |path| && (n > 0 ==> path[n - 1] == '/')
    ensures n <= |path| - 4
  {
    var suffix := path[|path| - 4..];
    assert suffix[0] == '-' && suffix[1] == '$' && suffix[2] == '#' && suffix[3] == '$';
    assert forall k | |path| - 4 <= k < |path| :: path[k] == suffix[k - (|path| - 4)];
  }

  lemma {:induction false} AfterLastSlash(dir: string, name: string)
    requires dir == "" || dir[|dir| - 1] == '/'
    requires '/' !in name
    ensures AfterSlash(dir + name) == |dir|
  {
    if name == "" {
      assert dir + name == dir;
    } else {
      var n := |name| - 1;
      AfterLastSlash(dir, name[..n]);
      assert (dir + name)[..|dir| + n] == dir + name[..n];
      assert name[n] in name;
    }
  }

  /** The number of a child's path can be read back. */
  lemma IdOfChildPath(path: string, id: nat)
    requires path != "" && path[|path| - 1] == '/' && id <= Text.MAX_INT64
    ensures HasSuffix(ChildPath(path, id)) && IdOf(ChildPath(path, id)) == Some(id)
  {
    var digits := Text.Itoa(id);
    var child := ChildPath(path, id);
    var name := digits + SPLIT_PLAN_KEY_SUFFIX;
    assert child == path + name;
    assert '/' !in name by {
      assert forall i | 0 <= i < |digits| :: Text.IsDigit(digits[i]);
      assert forall i | 0 <= i < |name| :: name[i] != '/';
    }
    AfterLastSlash(path, name);
    Text.AtoiItoa(id);
    assert child[|child| - 4..] == SPLIT_PLAN_KEY_SUFFIX;
    assert child[|path|..|child| - 4] == digits;
  }

  lemma DistinctPaths(path: string, i: nat, j: nat)
    requires path != "" && path[|path| - 1] == '/' && i <= Text.MAX_INT64 && j <= Text.MAX_INT64 && i != j
    ensures ChildPath(path, i) != ChildPath(path, j)
  {
    IdOfChildPath(path, i);
    IdOfChildPath(path, j);
  }

  // ---------------------------------------------------------------- writing

  ghost predicate IsNumbered(path: string, n: nat, p: string) {
    exists id: nat :: id < n && p == ChildPath(path, id)
  }

  /** Every chunk is a child of its own, under its number. */
  ghost predicate AreChildren(path: string, chunks: seq<Bytes>, children: map<string, Bytes>) {
    && (forall id: nat | id < |chunks| ::
        ChildPath(path, id) in children && children[ChildPath(path, id)] == chunks[id])
    && (forall p | p in children :: IsNumbered(path, |chunks|, p))
  }

  /** The children written below an empty directory. */
  method SetSplitPlan(all: Bytes, path: string) returns (children: map<string, Bytes>)
    requires path != "" && path[|path| - 1] == '/' && |all| <= Text.MAX_INT64
    ensures AreChildren(path, Chunks(all), children)
  {
    children := map[];
    var val, childID := all, 0;
    ghost var written: seq<Bytes> := [];
    ChunksOf(all);
    assert written + Chunks(all) == Chunks(all);
    while |val| > 0
      invariant childID == |written| && written + Chunks(val) == Chunks(all)
      invariant AreChildren(path, written, children)
      decreases |val|
    {
      var chunk;
      ghost var rest := Chunks(val);
      if |val| > MAX_SIZE_PER_KEY {
        chunk := val[..MAX_SIZE_PER_KEY];
        val := val[MAX_SIZE_PER_KEY..];
      } else {
        chunk := val;
        val := val[..0];
      }
      assert rest == [chunk] + Chunks(val);
      assert written + rest == written + [chunk] + Chunks(val);
      ChildrenStep(path, written, children, chunk);
      children := children[path + Text.Itoa(childID) + SPLIT_PLAN_KEY_SUFFIX := chunk];
      written := written + [chunk];
      childID := childID + 1;
    }
    assert written + [] == written;
  }

  lemma ChildrenStep(path: string, chunks: seq<Bytes>, children: map<string, Bytes>, chunk: Bytes)
    requires path != "" && path[|path| - 1] == '/' && |chunks| <= Text.MAX_INT64
    requires AreChildren(path, chunks, children)
    ensures AreChildren(path, chunks + [chunk], children[ChildPath(path, |chunks|) := chunk])
  {
    var n := |chunks|;
    var chunks', children' := chunks + [chunk], children[ChildPath(path, n) := chunk];
    forall id: nat | id < |chunks'|
      ensures ChildPath(path, id) in children' && children'[ChildPath(path, id)] == chunks'[id]
    {
      if id != n {
        DistinctPaths(path, id, n);
      }
    }
    forall p | p in children'
      ensures IsNumbered(path, |chunks'|, p)
    {
      if p in children {
        assert IsNumbered(path, n, p);
      } else {
        assert p == ChildPath(path, n);
      }
    }
  }

  // ---------------------------------------------------------------- reading

  /** Byte-wise order of strings. */
  predicate StringLess(a: string, b: string) {
    b != "" && (a == "" || a[0] < b[0] || (a[0] == b[0] && StringLess(a[1..], b[1..])))
  }

  predicate IsSplitPlan(children: seq<KVEntry>) {
    forall i | 0 <= i < |children| :: HasSuffix(children[i].path)
  }

  /** A child with the number read from its path. */
  datatype Item = Item(kv: KVEntry, id: Option<int>)

  /** By number, or by path when a number cannot be read. */
  predicate Less(a: Item, b: Item) {
    if a.id.None? || b.id.None? then StringLess(a.kv.path, b.kv.path) else a.id.value < b.id.value
  }

  predicate IsSorted(items: seq<Item>) {
    && (forall i | 0 <= i < |items| :: items[i].id.Some?)
    && (forall i, j | 0 <= i < j < |items| :: items[i].id.value <= items[j].id.value)
  }

  /** The entries before which a new one comes are a suffix; it goes right before them. */
  method Position(sorted: seq<Item>, item: Item) returns (i: nat)
    ensures i <= |sorted| && (i > 0 ==> !Less(item, sorted[i - 1]))
    ensures forall j | i <= j < |sorted| :: Less(item, sorted[j])
  {
    i := |sorted|;
    while i > 0 && Less(item, sorted[i - 1])
      invariant i <= |sorted|
      invariant forall j | i <= j < |sorted| :: Less(item, sorted[j])
    {
      i := i - 1;
    }
  }

  function InsertAt(sorted: seq<Item>, item: Item, i: nat): (r: seq<Item>)
    requires i <= |sorted|
  {
    sorted[..i] + [item] + sorted[i..]
  }

  lemma {:induction false} InsertKeepsAll(sorted: seq<Item>, item: Item, i: nat)
    requires i <= |sorted|
    ensures multiset(InsertAt(sorted, item, i)) == multiset(sorted) + multiset{item}
  {
    assert sorted == sorted[..i] + sorted[i..];
  }

  lemma {:induction false} InsertKeepsOrder(sorted: seq<Item>, item: Item, i: nat)
    requires i <= |sorted| && item.id.Some? && IsSorted(sorted)
    requires (i > 0 ==> !Less(item, sorted[i - 1])) && forall j | i <= j < |sorted| :: Less(item, sorted[j])
    ensures IsSorted(InsertAt(sorted, item, i))
  {
    var r := InsertAt(sorted, item, i);
    forall k | 0 <= k < |r|
      ensures r[k] == if k < i then sorted[k] else if k == i then item else sorted[k - 1]
    {
    }
  }

  method Insert(sorted: seq<Item>, item: Item) returns (r: seq<Item>)
    ensures multiset(r) == multiset(sorted) + multiset{item}
    ensures item.id.Some? && IsSorted(sorted) ==> IsSorted(r)
  {
    var at := Position(sorted, item);
    InsertKeepsAll(sorted, item, at);
    if item.id.Some? && IsSorted(sorted) {
      InsertKeepsOrder(sorted, item, at);
    }
    r := InsertAt(sorted, item, at);
  }

  function ItemOf(kv: KVEntry): (item: Item)
    requires HasSuffix(kv.path)
  {
    Item(kv, IdOf(kv.path))
  }

  /** The children with their numbers. */
  function Items(children: seq<KVEntry>): (items: seq<Item>)
    requires IsSplitPlan(children)
  {
    seq(|children|, i requires 0 <= i < |children| && HasSuffix(children[i].path) => ItemOf(children[i]))
  }

  predicate AreNumbered(items: seq<Item>) {
    forall i | 0 <= i < |items| :: items[i].id.Some?
  }

  /** In order when all have a number. */
  method SortItems(items: seq<Item>) returns (sorted: seq<Item>)
    ensures multiset(sorted) == multiset(items) && (AreNumbered(items) ==> IsSorted(sorted))
  {
    sorted := [];
    for i := 0 to |items|
      invariant multiset(sorted) == multiset(items[..i])
      invariant AreNumbered(items[..i]) ==> IsSorted(sorted)
    {
      assert items[..i + 1] == items[..i] + [items[i]];
      sorted := Insert(sorted, items[i]);
    }
    assert items[..|items|] == items;
  }

  function Values(items: seq<Item>): (r: seq<Bytes>) {
    if items == [] then [] else Values(items[..|items| - 1]) + [items[|items| - 1].kv.value]
  }

  /** The items, each once, in order when all have a number. */
  ghost predicate IsOrdering(items: seq<Item>, sorted: seq<Item>) {
    multiset(sorted) == multiset(items) && (AreNumbered(items) ==> IsSorted(sorted))
  }

  /** The value is that of the children put in order. */
  ghost predicate IsWoven(children: seq<KVEntry>, res: Bytes)
    requires IsSplitPlan(children)
  {
    exists sorted :: IsOrdering(Items(children), sorted) && res == Concat(Values(sorted))
  }

  method GetSplitPlan(children: seq<KVEntry>) returns (res: Bytes)
    requires IsSplitPlan(children)
    ensures IsWoven(children, res)
  {
    var ordered := SortItems(Items(children));
    res := [];
    for i := 0 to |ordered|
      invariant res == Concat(Values(ordered[..i]))
    {
      res := res + ordered[i].kv.value;
      ConcatAppend(Values(ordered[..i]), ordered[i].kv.value);
      assert ordered[..i + 1][..i] == ordered[..i];
    }
    assert ordered[..|ordered|] == ordered;
    assert IsOrdering(Items(children), ordered);
  }

  lemma {:induction false} ConcatAppend(chunks: seq<Bytes>, chunk: Bytes)
    ensures Concat(chunks + [chunk]) == Concat(chunks) + chunk
  {
    if chunks != [] {
      ConcatAppend(chunks[1..], chunk);
      assert (chunks + [chunk])[1..] == chunks[1..] + [chunk];
    } else {
      assert (chunks + [chunk])[1..] == [];
    }
  }

  // ---------------------------------------------------------------- round trip

  /** `children` lists the stored children, each once, in some order. */
  ghost predicate IsListing(stored: map<string, Bytes>, children: seq<KVEntry>) {
    && (forall i | 0 <= i < |children| :: children[i].path in stored && stored[children[i].path] == children[i].value)
    && (forall p | p in stored :: KVEntry(p, stored[p]) in children)
    && (forall i, j | 0 <= i < j < |children| :: children[i] != children[j])
  }

  /** The child that holds chunk `id`. */
  function Expected(path: string, chunks: seq<Bytes>, id: nat): (item: Item)
    requires id < |chunks|
  {
    Item(KVEntry(ChildPath(path, id), chunks[id]), Some(id))
  }

  ghost predicate IsExpected(path: string, chunks: seq<Bytes>, item: Item) {
    exists id: nat :: id < |chunks| && item == Expected(path, chunks, id)
  }

  lemma {:induction false} ListedIsExpected(path: string, chunks: seq<Bytes>, stored: map<string, Bytes>, kv: KVEntry)
    requires path != "" && path[|path| - 1] == '/' && |chunks| <= Text.MAX_INT64
    requires AreChildren(path, chunks, stored) && kv.path in stored && stored[kv.path] == kv.value
    ensures HasSuffix(kv.path) && IsExpected(path, chunks, ItemOf(kv))
  {
    assert IsNumbered(path, |chunks|, kv.path);
    var id: nat :| id < |chunks| && kv.path == ChildPath(path, id);
    IdOfChildPath(path, id);
    assert ItemOf(kv) == Expected(path, chunks, id);
  }

  lemma {:induction false} CountOnce(items: seq<Item>, x: Item)
    requires forall i, j | 0 <= i < j < |items| :: items[i] != items[j]
    ensures multiset(items)[x] <= 1
  {
    if items != [] {
      var n := |items| - 1;
      assert items == items[..n] + [items[n]];
      CountOnce(items[..n], x);
      assert items[n] == x ==> x !in items[..n];
    }
  }

  lemma {:induction false} AtLeast(ids: seq<int>, k: nat)
    requires k < |ids| && ids[0] >= 0
    requires forall i, j | 0 <= i < j < |ids| :: ids[i] < ids[j]
    ensures ids[k] >= k
  {
    if k > 0 {
      AtLeast(ids, k - 1);
    }
  }

  /** Increasing numbers, none negative, among which are all those up to k, start 0, 1, …, k. */
  lemma {:induction false} Counting(ids: seq<int>, k: nat)
    requires forall i | 0 <= i < |ids| :: ids[i] >= 0
    requires forall i, j | 0 <= i < j < |ids| :: ids[i] < ids[j]
    requires forall m | 0 <= m <= k :: m in ids
    ensures k < |ids| && ids[k] == k
  {
    assert k in ids;
    var p :| 0 <= p < |ids| && ids[p] == k;
    AtLeast(ids, p);
    if k > 0 {
      Counting(ids, k - 1);
    }
  }

  function IdsOf(items: seq<Item>): (ids: seq<int>)
    requires forall i | 0 <= i < |items| :: items[i].id.Some?
    ensures |ids| == |items| && forall i | 0 <= i < |items| :: ids[i] == items[i].id.value
  {
    if items == [] then [] else IdsOf(items[..|items| - 1]) + [items[|items| - 1].id.value]
  }

  lemma {:induction false} ValueAt(items: seq<Item>, i: nat)
    requires i < |items|
    ensures |Values(items)| == |items| && Values(items)[i] == items[i].kv.value
  {
    if |items| > 1 {
      var n := |items| - 1;
      ValueAt(items[..n], if i < n then i else 0);
    }
  }

  /** The chunks are all there, each once, and in order. */
  ghost predicate IsInOrder(path: string, chunks: seq<Bytes>, sorted: seq<Item>) {
    && IsSorted(sorted)
    && (forall i | 0 <= i < |sorted| :: IsExpected(path, chunks, sorted[i]))
    && (forall i, j | 0 <= i < j < |sorted| :: sorted[i] != sorted[j])
    && (forall id: nat | id < |chunks| :: Expected(path, chunks, id) in sorted)
  }

  /** All numbers below n, increasing. */
  ghost predicate AreAllBelow(ids: seq<int>, n: nat) {
    && (forall i | 0 <= i < |ids| :: 0 <= ids[i] < n)
    && (forall i, j | 0 <= i < j < |ids| :: ids[i] < ids[j])
    && (forall m | 0 <= m < n :: m in ids)
  }

  lemma {:induction false} StrictIds(path: string, chunks: seq<Bytes>, sorted: seq<Item>)
    requires IsInOrder(path, chunks, sorted)
    ensures AreAllBelow(IdsOf(sorted), |chunks|)
  {
    var ids := IdsOf(sorted);
    forall i | 0 <= i < |ids|
      ensures 0 <= ids[i] < |chunks|
    {
      assert IsExpected(path, chunks, sorted[i]);
    }
    forall i, j | 0 <= i < j < |ids|
      ensures ids[i] < ids[j]
    {
      assert IsExpected(path, chunks, sorted[i]) && IsExpected(path, chunks, sorted[j]);
    }
    forall m | 0 <= m < |chunks|
      ensures m in ids
    {
      assert Expected(path, chunks, m) in sorted;
      var p :| 0 <= p < |sorted| && sorted[p] == Expected(path, chunks, m);
      assert ids[p] == m;
    }
  }

  lemma {:induction false} IdsCount(ids: seq<int>, n: nat)
    requires AreAllBelow(ids, n)
    ensures |ids| == n && forall k | 0 <= k < n :: ids[k] == k
  {
    forall k: nat | k < n
      ensures k < |ids| && ids[k] == k
    {
      Counting(ids, k);
    }
    if n > 0 {
      Counting(ids, n - 1);
    }
    if |ids| > 0 {
      AtLeast(ids, |ids| - 1);
    }
  }

  /** Then they carry the chunks. */
  lemma {:induction false} InOrder(path: string, chunks: seq<Bytes>, sorted: seq<Item>)
    requires IsInOrder(path, chunks, sorted)
    ensures Values(sorted) == chunks
  {
    StrictIds(path, chunks, sorted);
    IdsCount(IdsOf(sorted), |chunks|);
    if sorted != [] {
      ValueAt(sorted, 0);
    }
    forall k | 0 <= k < |sorted|
      ensures Values(sorted)[k] == chunks[k]
    {
      ValueAt(sorted, k);
      assert IsExpected(path, chunks, sorted[k]);
    }
  }

  lemma {:induction false} ListedItems(path: string, chunks: seq<Bytes>, stored: map<string, Bytes>,
                                       children: seq<KVEntry>)
    requires path != "" && path[|path| - 1] == '/' && |chunks| <= Text.MAX_INT64
    requires AreChildren(path, chunks, stored) && IsListing(stored, children)
    ensures IsSplitPlan(children)
    ensures forall i | 0 <= i < |children| :: IsExpected(path, chunks, Items(children)[i])
  {
    forall i | 0 <= i < |children|
      ensures HasSuffix(children[i].path) && IsExpected(path, chunks, ItemOf(children[i]))
    {
      ListedIsExpected(path, chunks, stored, children[i]);
    }
  }

  lemma {:induction false} ChunkListed(path: string, chunks: seq<Bytes>, stored: map<string, Bytes>,
                                       children: seq<KVEntry>, id: nat)
    requires path != "" && path[|path| - 1] == '/' && |chunks| <= Text.MAX_INT64
    requires AreChildren(path, chunks, stored) && IsListing(stored, children) && IsSplitPlan(children) && id < |chunks|
    ensures Expected(path, chunks, id) in Items(children)
  {
    var kv := KVEntry(ChildPath(path, id), chunks[id]);
    assert kv in children;
    var i :| 0 <= i < |children| && children[i] == kv;
    IdOfChildPath(path, id);
    assert Items(children)[i] == Expected(path, chunks, id);
  }

  lemma {:induction false} ItemsDistinct(children: seq<KVEntry>)
    requires IsSplitPlan(children) && forall i, j | 0 <= i < j < |children| :: children[i] != children[j]
    ensures forall i, j | 0 <= i < j < |children| :: Items(children)[i] != Items(children)[j]
  {
    forall i, j | 0 <= i < j < |children|
      ensures Items(children)[i] != Items(children)[j]
    {
      assert Items(children)[i].kv == children[i] && Items(children)[j].kv == children[j];
    }
  }

  lemma {:induction false} AtMostOnce(s: seq<Item>, i: nat, j: nat)
    requires i < j < |s| && multiset(s)[s[j]] <= 1
    ensures s[i] != s[j]
  {
    var x := s[j];
    assert s == s[..j] + [x] + s[j + 1..];
    assert multiset(s)[x] == multiset(s[..j])[x] + 1 + multiset(s[j + 1..])[x];
    assert x !in s[..j] && s[i] in s[..j];
  }

  /** Every ordering of the listed children has the chunks in order. */
  lemma {:induction false} OrderingIsInOrder(path: string, chunks: seq<Bytes>, stored: map<string, Bytes>,
                                             children: seq<KVEntry>, sorted: seq<Item>)
    requires path != "" && path[|path| - 1] == '/' && |chunks| <= Text.MAX_INT64
    requires AreChildren(path, chunks, stored) && IsListing(stored, children)
    requires IsSplitPlan(children) && IsOrdering(Items(children), sorted)
    ensures IsInOrder(path, chunks, sorted)
  {
    var items := Items(children);
    ListedItems(path, chunks, stored, children);
    ItemsDistinct(children);
    assert AreNumbered(items);
    forall i | 0 <= i < |sorted|
      ensures IsExpected(path, chunks, sorted[i])
    {
      assert sorted[i] in multiset(sorted);
      assert sorted[i] in items;
    }
    forall i, j | 0 <= i < j < |sorted|
      ensures sorted[i] != sorted[j]
    {
      CountOnce(items, sorted[j]);
      AtMostOnce(sorted, i, j);
    }
    forall id: nat | id < |chunks|
      ensures Expected(path, chunks, id) in sorted
    {
      ChunkListed(path, chunks, stored, children, id);
      assert Expected(path, chunks, id) in multiset(items);
      assert Expected(path, chunks, id) in multiset(sorted);
    }
  }

  /** However the children are listed, reading them gives the bytes that were written. */
  lemma {:induction false} SplitRoundTrip(val: Bytes, path: string, stored: map<string, Bytes>, children: seq<KVEntry>,
                                          res: Bytes)
    requires path != "" && path[|path| - 1] == '/' && |val| <= Text.MAX_INT64
    requires AreChildren(path, Chunks(val), stored) && IsListing(stored, children)
    requires IsSplitPlan(children) && IsWoven(children, res)
    ensures res == val
  {
    ChunksOf(val);
    var sorted :| IsOrdering(Items(children), sorted) && res == Concat(Values(sorted));
    OrderingIsInOrder(path, Chunks(val), stored, children, sorted);
    InOrder(path, Chunks(val), sorted);
  }

  /** A listing of the stored children, in any order. */
  method List(stored: map<string, Bytes>) returns (children: seq<KVEntry>)
    ensures IsListing(stored, children)
  {
    children := [];
    var todo := stored.Keys;
    while todo != {}
      invariant todo <= stored.Keys
      invariant forall i | 0 <= i < |children| ::
                  children[i].path in stored && children[i].path !in todo
                    && stored[children[i].path] == children[i].value
      invariant forall p | p in stored && p !in todo :: KVEntry(p, stored[p]) in children
      invariant forall i, j | 0 <= i < j < |children| :: children[i] != children[j]
      decreases |todo|
    {
      var p :| p in todo;
      children := children + [KVEntry(p, stored[p])];
      todo := todo - {p};
    }
  }

  /** Written, listed in any order and read: the same bytes. */
  method StoreAndLoad(val: Bytes, path: string) returns (res: Bytes)
    requires path != "" && path[|path| - 1] == '/' && |val| <= Text.MAX_INT64
    ensures res == val
  {
    var stored := SetSplitPlan(val, path);
    var children := List(stored);
    ChunksOf(val);
    ListedItems(path, Chunks(val), stored, children);
    res := GetSplitPlan(children);
    SplitRoundTrip(val, path, stored, children, res);
  }
}
