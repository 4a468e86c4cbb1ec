/**
 * The kernel module's bookkeeping (module/map.c, module/pci.c): a table of controller references,
 * each owning a sorted list of mappings, and the pinned pages and DMA mappings they account for.
 */
module Kernel {
  import opened Wrappers
  import MapList

  const EBADF := -9
  const EINVAL := -22
  const ENOSPC := -28
  const PAGE_SIZE := 4096

  /** map_descriptor: the pages pinned (n_pages of them) and the bus addresses mapped (n_addrs). */
  datatype Map = Map(vaddr: nat, pages: seq<nat>, addrs: seq<nat>)

  /** ctrl_ref; `maps` is user_page_maps, kept as MapList keeps it. */
  datatype Ref = Ref(inUse: bool, ctrl: Option<nat>, owner: nat, maps: seq<Map>)

  /**
   * What allocating and get_user_pages gave: the pages it pinned; an error and nothing pinned; or 0,
   * which lock_user_pages passes on as success (module/map.c:93-97) with the descriptor's page array
   * never set, so that it claims whatever memory held.
   */
  datatype Pinning = Pinned(pages: seq<nat>) | PinFailed(err: int) | PinnedNone(stale: seq<nat>)

  /** The pages the descriptor claims, and those that are pinned. */
  function Claimed(p: Pinning): seq<nat> {
    match p case Pinned(pages) => pages case PinFailed(_) => [] case PinnedNone(stale) => stale
  }

  function Taken(p: Pinning): seq<nat> { if p.Pinned? then p.pages else [] }

  /** A success is of at least one page, an error is negative, and no more pages are mapped than claimed. */
  predicate Possible(p: Pinning, bus: seq<nat>) {
    (p.Pinned? ==> p.pages != []) && (p.PinFailed? ==> p.err < 0) && (!p.PinFailed? ==> |bus| <= |Claimed(p)|)
  }

  function PageOf(vaddr: nat): nat { vaddr - vaddr % PAGE_SIZE }

  /** The start of the 4096-byte page the address is in; addresses share it exactly when they share the page. */
  lemma PageIs(v: nat, a: nat)
    ensures PageOf(v) == v / 4096 * 4096 && PageOf(v) % 4096 == 0 && PageOf(v) <= v < PageOf(v) + 4096
    ensures PageOf(a) == PageOf(v) <==> a / 4096 == v / 4096
    ensures PageOf(v) == 0 <==> v < 4096
  {}

  // ---------------------------------------------------------------- the list, as MapList specifies it

  function Smaller(maps: seq<Map>, v: nat): (k: nat)
    ensures k <= |maps|
  {
    if maps == [] || maps[0].vaddr >= v then 0 else 1 + Smaller(maps[1..], v)
  }

  /** list_insert; address 0 is refused. */
  function Insert(maps: seq<Map>, m: Map): seq<Map> {
    if m.vaddr == 0 then maps else var k := Smaller(maps, m.vaddr); maps[..k] + [m] + maps[k..]
  }

  /** list_find: the first mapping of the address. */
  function Find(maps: seq<Map>, v: nat): (k: Option<nat>)
    ensures k.Some? ==> k.value < |maps| && maps[k.value].vaddr == v
  {
    if maps == [] || maps[0].vaddr > v then None
    else if maps[0].vaddr == v then Some(0)
    else match Find(maps[1..], v) case Some(i) => Some(i + 1) case None => None
  }

  function Without(maps: seq<Map>, k: nat): seq<Map>
    requires k < |maps|
  {
    maps[..k] + maps[k + 1..]
  }

  // ---------------------------------------------------------------- what it stores, and that it is that list

  /** As MapList.Sorted: addresses never decrease, and 0 is the head's own. */
  ghost predicate Ordered(maps: seq<Map>) {
    && (forall i, j | 0 <= i < j < |maps| :: maps[i].vaddr <= maps[j].vaddr)
    && (forall i | 0 <= i < |maps| :: maps[i].vaddr > 0)
  }

  /** The mapping list_find returns for an address. */
  function Found(maps: seq<Map>, v: nat): Option<Map> {
    match Find(maps, v) case Some(k) => Some(maps[k]) case None => None
  }

  lemma {:induction false} SmallerPrefix(maps: seq<Map>, v: nat)
    requires Ordered(maps)
    ensures forall i | 0 <= i < |maps| :: maps[i].vaddr < v <==> i < Smaller(maps, v)
  {
    if maps != [] && maps[0].vaddr < v {
      SmallerPrefix(maps[1..], v);
      forall i | 0 <= i < |maps| ensures maps[i].vaddr < v <==> i < Smaller(maps, v) {
        if i > 0 { assert maps[i] == maps[1..][i - 1]; }
      }
    }
  }

  /** Find stops where the smaller addresses end. */
  lemma {:induction false} FindPlace(maps: seq<Map>, v: nat)
    requires Ordered(maps)
    ensures Find(maps, v) == if Smaller(maps, v) < |maps| && maps[Smaller(maps, v)].vaddr == v then Some(Smaller(maps, v)) else None
  {
    if maps != [] && maps[0].vaddr < v { FindPlace(maps[1..], v); }
  }

  /** Nothing is found exactly when no mapping has the address; otherwise the first that has it. */
  lemma FindExact(maps: seq<Map>, v: nat)
    requires Ordered(maps)
    ensures Find(maps, v) == if Smaller(maps, v) < |maps| && maps[Smaller(maps, v)].vaddr == v then Some(Smaller(maps, v)) else None
    ensures Find(maps, v).None? <==> forall m <- maps :: m.vaddr != v
  {
    FindPlace(maps, v);
    SmallerPrefix(maps, v);
    hide Find, Smaller;
    var k := Smaller(maps, v);
    if k < |maps| && maps[k].vaddr == v {
      assert maps[k] in maps;
    } else {
      forall m <- maps ensures m.vaddr != v {
        var i :| 0 <= i < |maps| && maps[i] == m;
        if i >= k { assert maps[k].vaddr <= maps[i].vaddr && maps[k].vaddr > v; }
      }
    }
  }

  /** What insertion leaves at each place. */
  lemma InsertShape(maps: seq<Map>, m: Map)
    requires Ordered(maps) && m.vaddr > 0
    ensures var k, maps' := Smaller(maps, m.vaddr), Insert(maps, m);
            && |maps'| == |maps| + 1 && maps'[k] == m
            && (forall i | 0 <= i < k :: maps'[i] == maps[i] && maps[i].vaddr < m.vaddr)
            && (forall i | k < i <= |maps| :: maps'[i] == maps[i - 1] && maps[i - 1].vaddr >= m.vaddr)
  {
    hide Ordered, Smaller;
    SmallerPrefix(maps, m.vaddr);
  }

  lemma InsertOrdered(maps: seq<Map>, m: Map)
    requires Ordered(maps)
    ensures Ordered(Insert(maps, m))
  {
    if m.vaddr > 0 { InsertShape(maps, m); }
  }

  /** From then on the new mapping is the one its address finds; other addresses find what they did. */
  lemma InsertFinds(maps: seq<Map>, m: Map, v: nat)
    requires Ordered(maps) && m.vaddr > 0
    ensures Found(Insert(maps, m), v) == if v == m.vaddr then Some(m) else Found(maps, v)
  {
    hide Insert, Smaller, Found;
    InsertShape(maps, m);
    InsertOrdered(maps, m);
    FirstFound(Insert(maps, m), v);
    FirstFound(maps, v);
    InsertSmaller(maps, m, v);
    var k, p, maps' := Smaller(maps, m.vaddr), Smaller(maps, v), Insert(maps, m);
    assert k < |maps| ==> maps'[k + 1] == maps[k];
    assert p < k ==> maps'[p] == maps[p];
    assert k <= p < |maps| ==> maps'[p + 1] == maps[p];
  }

  lemma InsertSmaller(maps: seq<Map>, m: Map, v: nat)
    requires Ordered(maps) && m.vaddr > 0
    ensures Smaller(Insert(maps, m), v) == Smaller(maps, v) + (if m.vaddr < v then 1 else 0)
    ensures if m.vaddr < v then Smaller(maps, m.vaddr) <= Smaller(maps, v) else Smaller(maps, v) <= Smaller(maps, m.vaddr)
    ensures m.vaddr == v ==> Smaller(maps, v) == Smaller(maps, m.vaddr)
  {
    hide Insert, Smaller;
    var p, k := Smaller(maps, v), Smaller(maps, m.vaddr);
    InsertShape(maps, m);
    InsertOrdered(maps, m);
    SmallerPrefix(maps, v);
    SmallerPrefix(maps, m.vaddr);
    assert p < |maps| ==> maps[p].vaddr >= v;
    assert k < |maps| ==> maps[k].vaddr >= m.vaddr;
    SmallerIs(Insert(maps, m), v, p + (if m.vaddr < v then 1 else 0));
  }

  lemma FirstFound(maps: seq<Map>, v: nat)
    requires Ordered(maps)
    ensures var k := Smaller(maps, v);
            Found(maps, v) == if k < |maps| && maps[k].vaddr == v then Some(maps[k]) else None
  {
    FindExact(maps, v);
  }

  /** The number of smaller addresses is where they end. */
  lemma SmallerIs(maps: seq<Map>, v: nat, k: nat)
    requires Ordered(maps) && k <= |maps| && (forall i | 0 <= i < |maps| :: maps[i].vaddr < v <==> i < k)
    ensures Smaller(maps, v) == k
  {
    SmallerPrefix(maps, v);
    var n := Smaller(maps, v);
    assert n < |maps| ==> maps[n].vaddr >= v;
    assert k < |maps| ==> maps[k].vaddr >= v;
  }

  lemma NoneOrdered()
    ensures Ordered([])
  {}

  lemma WithoutOrdered(maps: seq<Map>, k: nat)
    requires Ordered(maps) && k < |maps|
    ensures Ordered(Without(maps, k))
  {
    forall i | 0 <= i < |maps| - 1 ensures Without(maps, k)[i] == maps[if i < k then i else i + 1] {}
  }

  /** After its head, the heap list of MapList threads the nodes of just these mappings; `desc` is each node's descriptor. */
  ghost predicate Embeds(nodes: seq<MapList.Node>, maps: seq<Map>, desc: map<MapList.Node, Map>) {
    |nodes| == |maps| + 1 && forall i {:trigger maps[i]} | 0 <= i < |maps| :: Describes(desc, nodes[i + 1], maps[i])
  }

  ghost predicate Describes(desc: map<MapList.Node, Map>, node: MapList.Node, m: Map) {
    node in desc && desc[node] == m && node.vaddr == m.vaddr
  }

  lemma SmallerRefines(nodes: seq<MapList.Node>, maps: seq<Map>, desc: map<MapList.Node, Map>, v: nat)
    requires MapList.Sorted(nodes) && Embeds(nodes, maps, desc)
    ensures Ordered(maps) && MapList.Smaller(nodes[1..], v) == Smaller(maps, v)
  {
    EmbedsOrdered(nodes, maps, desc);
    SmallerPrefix(maps, v);
    var k := Smaller(maps, v);
    forall j | 0 <= j < |maps| ensures nodes[1..][j].vaddr == maps[j].vaddr {}
    MapList.SmallerPrefix(nodes[1..], v, k);
  }

  lemma EmbedsOrdered(nodes: seq<MapList.Node>, maps: seq<Map>, desc: map<MapList.Node, Map>)
    requires MapList.Sorted(nodes) && Embeds(nodes, maps, desc)
    ensures Ordered(maps)
  {
    forall i, j | 0 <= i < j < |maps| ensures maps[i].vaddr <= maps[j].vaddr {
      assert nodes[i + 1].vaddr <= nodes[j + 1].vaddr;
    }
    forall i | 0 <= i < |maps| ensures maps[i].vaddr > 0 { assert nodes[i + 1].vaddr > 0; }
  }

  /** list_insert of a new node on the heap is Insert of its descriptor. */
  lemma InsertRefines(nodes: seq<MapList.Node>, maps: seq<Map>, desc: map<MapList.Node, Map>, node: MapList.Node, m: Map)
    requires MapList.Sorted(nodes) && Embeds(nodes, maps, desc) && node !in nodes && node.vaddr == m.vaddr > 0
    ensures Embeds(MapList.Inserted(nodes, node), Insert(maps, m), desc[node := m])
  {
    SmallerRefines(nodes, maps, desc, m.vaddr);
    MapList.SmallerBound(nodes[1..], node.vaddr);
    var k := Smaller(maps, m.vaddr);
    var ns, ms, desc' := MapList.Inserted(nodes, node), Insert(maps, m), desc[node := m];
    assert ns == nodes[..k + 1] + [node] + nodes[k + 1..];
    forall i {:trigger ms[i]} | 0 <= i < |ms| ensures Describes(desc', ns[i + 1], ms[i]) {
      if i < k { assert ns[i + 1] == nodes[i + 1] && ms[i] == maps[i] && nodes[i + 1] in nodes; }
      if i == k { assert ns[i + 1] == node && ms[i] == m; }
      if i > k { assert ns[i + 1] == nodes[i] && ms[i] == maps[i - 1] && nodes[i] in nodes; }
    }
  }

  /** list_find on the heap gives the node whose descriptor Find gives. */
  lemma FindRefines(nodes: seq<MapList.Node>, maps: seq<Map>, desc: map<MapList.Node, Map>, v: nat)
    requires MapList.Sorted(nodes) && Embeds(nodes, maps, desc)
    ensures match Find(maps, v)
            case None => MapList.Stack(nodes, v) == []
            case Some(k) =>
              var top := nodes[k + 1];
              MapList.Stack(nodes, v) != [] && MapList.Stack(nodes, v)[0] == top && top in desc && desc[top] == maps[k]
  {
    SmallerRefines(nodes, maps, desc, v);
    FindExact(maps, v);
    SmallerPrefix(maps, v);
    var k := Smaller(maps, v);
    forall j | 1 <= j < k + 1 ensures nodes[j].vaddr < v { assert maps[j - 1].vaddr < v; }
    MapList.StackAt(nodes, v, k + 1);
    if Find(maps, v).None? {
      forall j | k + 1 <= j < |nodes| ensures nodes[j].vaddr != v { assert maps[j - 1] in maps; }
      MapList.AtNone(nodes[k + 1..], v);
    }
  }

  /** list_remove of a node on the heap is Without of its own descriptor, and no other node loses its own. */
  lemma WithoutRefines(nodes: seq<MapList.Node>, maps: seq<Map>, desc: map<MapList.Node, Map>, k: nat)
    requires MapList.Sorted(nodes) && Embeds(nodes, maps, desc) && k < |maps|
    ensures Embeds(nodes[..k + 1] + nodes[k + 2..], Without(maps, k), desc - {nodes[k + 1]})
  {
    var ns, ms, desc' := nodes[..k + 1] + nodes[k + 2..], Without(maps, k), desc - {nodes[k + 1]};
    forall i {:trigger ms[i]} | 0 <= i < |ms| ensures Describes(desc', ns[i + 1], ms[i]) {
      if i < k { assert ns[i + 1] == nodes[i + 1] != nodes[k + 1] && ms[i] == maps[i]; }
      else { assert ns[i + 1] == nodes[i + 2] != nodes[k + 1] && ms[i] == maps[i + 1]; }
    }
  }

  // ---------------------------------------------------------------- what the table accounts for

  /** The two resources: pinned pages, and DMA mappings by bus address. */
  datatype Kind = Pin | Dma

  function Items(m: Map, kind: Kind): seq<nat> { if kind == Pin then m.pages else m.addrs }

  function Occurs(s: seq<nat>, x: nat): nat {
    if s == [] then 0 else (if s[0] == x then 1 else 0) + Occurs(s[1..], x)
  }

  /** How often a list of mappings holds item x. */
  function Held(maps: seq<Map>, kind: Kind, x: nat): nat {
    if maps == [] then 0 else Occurs(Items(maps[0], kind), x) + Held(maps[1..], kind, x)
  }

  function HeldByAll(refs: seq<Ref>, kind: Kind, x: nat): nat {
    if refs == [] then 0 else Held(refs[0].maps, kind, x) + HeldByAll(refs[1..], kind, x)
  }

  lemma {:induction false} OccursConcat(a: seq<nat>, b: seq<nat>, x: nat)
    ensures Occurs(a + b, x) == Occurs(a, x) + Occurs(b, x)
  {
    if a == [] { assert a + b == b; } else {
      OccursConcat(a[1..], b, x);
      assert (a + b)[1..] == a[1..] + b;
    }
  }

  lemma {:induction false} OccursIs(s: seq<nat>, x: nat)
    ensures multiset(s)[x] == Occurs(s, x)
  {
    if s != [] {
      OccursIs(s[1..], x);
      assert s == [s[0]] + s[1..];
    }
  }

  ghost predicate SameItems(a: seq<nat>, b: seq<nat>) { forall x: nat :: Occurs(a, x) == Occurs(b, x) }

  lemma SameSelf(a: seq<nat>)
    ensures SameItems(a, a)
  {}

  /** A descriptor claims each page as often as it is pinned exactly when it claims just what is pinned. */
  lemma ClaimedTaken(p: Pinning)
    ensures SameItems(Claimed(p), Taken(p)) <==> Claimed(p) == Taken(p)
  {
    if p.PinnedNone? && p.stale != [] {
      assert Occurs(Claimed(p), p.stale[0]) > 0 == Occurs(Taken(p), p.stale[0]);
    }
  }

  lemma {:induction false} HeldConcat(a: seq<Map>, b: seq<Map>, kind: Kind, x: nat)
    ensures Held(a + b, kind, x) == Held(a, kind, x) + Held(b, kind, x)
  {
    if a == [] { assert a + b == b; } else {
      HeldConcat(a[1..], b, kind, x);
      assert (a + b)[1..] == a[1..] + b;
    }
  }

  lemma InsertHeld(maps: seq<Map>, m: Map, kind: Kind, x: nat)
    ensures Held(Insert(maps, m), kind, x) == Held(maps, kind, x) + (if m.vaddr == 0 then 0 else Occurs(Items(m, kind), x))
  {
    var k := Smaller(maps, m.vaddr);
    HeldConcat(maps[..k] + [m], maps[k..], kind, x);
    HeldConcat(maps[..k], [m], kind, x);
    HeldConcat(maps[..k], maps[k..], kind, x);
    assert maps[..k] + maps[k..] == maps;
  }

  lemma WithoutHeld(maps: seq<Map>, k: nat, kind: Kind, x: nat)
    requires k < |maps|
    ensures Held(maps, kind, x) == Held(Without(maps, k), kind, x) + Occurs(Items(maps[k], kind), x)
  {
    HeldConcat(maps[..k] + [maps[k]], maps[k + 1..], kind, x);
    HeldConcat(maps[..k], [maps[k]], kind, x);
    HeldConcat(maps[..k], maps[k + 1..], kind, x);
    assert maps[..k] + [maps[k]] + maps[k + 1..] == maps;
  }

  /** One slot changes: the totals change by that slot. */
  lemma {:induction false} TotalsUpdate(refs: seq<Ref>, i: nat, r: Ref, kind: Kind, x: nat)
    requires i < |refs|
    ensures HeldByAll(refs[i := r], kind, x) + Held(refs[i].maps, kind, x) == HeldByAll(refs, kind, x) + Held(r.maps, kind, x)
  {
    if i > 0 {
      TotalsUpdate(refs[1..], i - 1, r, kind, x);
      assert refs[i := r][1..] == refs[1..][i - 1 := r];
    }
  }

  lemma {:induction false} FreeTotals(refs: seq<Ref>, kind: Kind, x: nat)
    requires forall r <- refs :: r.maps == []
    ensures HeldByAll(refs, kind, x) == 0
  {
    if refs != [] { FreeTotals(refs[1..], kind, x); }
  }

  const FREE := Ref(false, None, 0, [])

  /** What is left when the items of a list are given back one by one. */
  ghost predicate Released(before: multiset<nat>, after: multiset<nat>, items: seq<nat>) {
    forall x: nat :: after[x] + Occurs(items, x) == before[x]
  }

  ghost predicate Gained(before: multiset<nat>, after: multiset<nat>, items: seq<nat>) {
    Released(after, before, items)
  }

  /** Everything taken of one kind is held by a list of the table or lost. */
  ghost predicate Balance(taken: multiset<nat>, lost: multiset<nat>, refs: seq<Ref>, kind: Kind) {
    forall x: nat :: taken[x] == HeldByAll(refs, kind, x) + lost[x]
  }

  /** Taking some items for a mapping that claims some: of page 0 they are lost, otherwise its list holds what it claims. */
  lemma BalanceStep(before: multiset<nat>, after: multiset<nat>, lost: multiset<nat>, refs: seq<Ref>, refs': seq<Ref>,
                    kind: Kind, items: seq<nat>, claimed: seq<nat>, zero: bool)
    requires Balance(before, lost, refs, kind) && Gained(before, after, items)
    requires forall x :: HeldByAll(refs', kind, x) == HeldByAll(refs, kind, x) + (if zero then 0 else Occurs(claimed, x))
    ensures Balance(after, lost + (if zero then multiset(items) else multiset{}), refs', kind)
            <==> zero || SameItems(claimed, items)
  {
    hide HeldByAll, Occurs;
    forall x: nat ensures multiset(items)[x] == Occurs(items, x) { OccursIs(items, x); }
    var lost' := lost + (if zero then multiset(items) else multiset{});
    if Balance(after, lost', refs', kind) && !zero {
      forall x: nat ensures Occurs(claimed, x) == Occurs(items, x) {
        assert after[x] == before[x] + Occurs(items, x) && after[x] == HeldByAll(refs', kind, x) + lost'[x];
      }
    }
    if zero || SameItems(claimed, items) {
      forall x: nat ensures after[x] == HeldByAll(refs', kind, x) + lost'[x] {
        assert after[x] == before[x] + Occurs(items, x) && lost'[x] == lost[x] + (if zero then multiset(items)[x] else 0);
      }
      assert Balance(after, lost', refs', kind);
    }
  }

  /** A slot with an empty list can be freed. */
  lemma FreeBalance(refs: seq<Ref>, i: nat, taken: multiset<nat>, lost: multiset<nat>, kind: Kind)
    requires i < |refs| && refs[i].maps == [] && Balance(taken, lost, refs, kind)
    ensures Balance(taken, lost, refs[i := FREE], kind)
  {
    forall x: nat ensures HeldByAll(refs[i := FREE], kind, x) == HeldByAll(refs, kind, x) { TotalsUpdate(refs, i, FREE, kind, x); }
  }

  /** Giving back what the first mapping of those left holds. */
  lemma Drained(before: multiset<nat>, now: multiset<nat>, after: multiset<nat>, all: seq<Map>, left: seq<Map>, kind: Kind)
    requires left != [] && (forall x: nat :: now[x] + Held(all, kind, x) == before[x] + Held(left, kind, x))
    requires Released(now, after, Items(left[0], kind))
    ensures forall x: nat :: after[x] + Held(all, kind, x) == before[x] + Held(left[1..], kind, x)
  {
    forall x: nat ensures after[x] + Held(all, kind, x) == before[x] + Held(left[1..], kind, x) {
      assert now[x] + Held(all, kind, x) == before[x] + Held(left, kind, x);
      assert Held(left, kind, x) == Occurs(Items(left[0], kind), x) + Held(left[1..], kind, x);
    }
  }

  lemma NothingHeld()
    ensures forall kind, x :: Held([], kind, x) == 0
  {}

  class Module {
    const refs: array<Ref>        // ctrl_refs
    const maxPages: nat           // max_pages_per_map
    var pinned: multiset<nat>     // pages the kernel holds pinned for the module
    var mapped: multiset<nat>     // DMA mappings outstanding
    ghost var lostPins: multiset<nat>  // pinned for mappings of page 0, which no list holds
    ghost var lostMaps: multiset<nat>

    /** disnvme_entry: all slots zeroed. */
    constructor (n: nat, maxPages: nat)
      ensures Valid() && fresh(refs) && refs.Length == n && (forall i | 0 <= i < n :: refs[i] == FREE)
      ensures lostPins == multiset{} == lostMaps && this.maxPages == maxPages
    {
      refs := new Ref[n](_ => FREE);
      pinned, mapped, lostPins, lostMaps := multiset{}, multiset{}, multiset{}, multiset{};
      this.maxPages := maxPages;
      new;
      forall kind, x ensures HeldByAll(refs[..], kind, x) == 0 { FreeTotals(refs[..], kind, x); }
    }

    /** Every pinned page and every DMA mapping is accounted for by exactly the live slots' lists, or lost. */
    ghost predicate Conserved()
      reads this, refs
    {
      Balance(pinned, lostPins, refs[..], Pin) && Balance(mapped, lostMaps, refs[..], Dma)
    }

    /** put_page; the kernel demands that the page is pinned. */
    method PutPage(p: nat)
      requires pinned[p] > 0
      modifies this`pinned
      ensures pinned == old(pinned)[p := old(pinned)[p] - 1]
    {
      pinned := pinned[p := pinned[p] - 1];
    }

    /** dma_unmap_page; the address must be mapped. */
    method DmaUnmapPage(a: nat)
      requires mapped[a] > 0
      modifies this`mapped
      ensures mapped == old(mapped)[a := old(mapped)[a] - 1]
    {
      mapped := mapped[a := mapped[a] - 1];
    }

    /** get_user_pages succeeded. */
    method PinPages(pages: seq<nat>)
      modifies this`pinned
      ensures Gained(old(pinned), pinned, pages)
    {
      var i := 0;
      while i < |pages|
        invariant 0 <= i <= |pages|
        invariant Gained(old(pinned), pinned, pages[..i])
      {
        pinned := pinned[pages[i] := pinned[pages[i]] + 1];
        forall x: nat ensures Occurs(pages[..i + 1], x) == Occurs(pages[..i], x) + (if pages[i] == x then 1 else 0) {
          TakeOne(pages, i, x);
        }
        i := i + 1;
      }
      assert pages[..i] == pages;
    }

    /** dma_map_page on one page after another until one fails. */
    method MapForDma(bus: seq<nat>)
      modifies this`mapped
      ensures Gained(old(mapped), mapped, bus)
    {
      var i := 0;
      while i < |bus|
        invariant 0 <= i <= |bus|
        invariant Gained(old(mapped), mapped, bus[..i])
      {
        mapped := mapped[bus[i] := mapped[bus[i]] + 1];
        forall x: nat ensures Occurs(bus[..i + 1], x) == Occurs(bus[..i], x) + (if bus[i] == x then 1 else 0) {
          TakeOne(bus, i, x);
        }
        i := i + 1;
      }
      assert bus[..i] == bus;
    }

    method UnmapAll(addrs: seq<nat>)
      requires forall x: nat :: mapped[x] >= Occurs(addrs, x)
      modifies this`mapped
      ensures Released(old(mapped), mapped, addrs)
    {
      var j := 0;
      while j < |addrs|
        invariant 0 <= j <= |addrs|
        invariant forall x: nat :: mapped[x] + Occurs(addrs, x) == old(mapped)[x] + Occurs(addrs[j..], x)
      {
        assert addrs[j..][1..] == addrs[j + 1..];
        assert Occurs(addrs[j..], addrs[j]) > 0;
        DmaUnmapPage(addrs[j]);
        j := j + 1;
      }
    }

    method PutAll(pages: seq<nat>)
      requires forall x: nat :: pinned[x] >= Occurs(pages, x)
      modifies this`pinned
      ensures Released(old(pinned), pinned, pages)
    {
      var j := 0;
      while j < |pages|
        invariant 0 <= j <= |pages|
        invariant forall x: nat :: pinned[x] + Occurs(pages, x) == old(pinned)[x] + Occurs(pages[j..], x)
      {
        assert pages[j..][1..] == pages[j + 1..];
        assert Occurs(pages[j..], pages[j]) > 0;
        PutPage(pages[j]);
        j := j + 1;
      }
    }

    /**
     * map_user_pages on slot i. `pinning` is what get_user_pages gave (possibly fewer pages than
     * asked for), `bus` the addresses dma_map_page gave until it failed or all pages were mapped.
     * The result of list_insert is ignored, so what a mapping of page 0 takes is lost: no list holds it.
     * After a result of 0 the list comes to hold pages that nobody pinned.
     */
    method MapUserPages(i: nat, vaddr: nat, nPages: nat, pinning: Pinning, bus: seq<nat>) returns (err: int)
      requires Conserved() && i < refs.Length && Possible(pinning, bus)
      modifies this`pinned, this`mapped, this`lostPins, this`lostMaps, refs
      ensures Conserved() <==> err != 0 || vaddr < 4096 || Claimed(pinning) == Taken(pinning)
      ensures err == if nPages < 1 then EINVAL else if pinning.PinFailed? then pinning.err else 0
      ensures refs[..] == if err != 0 then old(refs[..]) else
                old(refs[..])[i := old(refs[i]).(maps := Insert(old(refs[i].maps), Map(vaddr / 4096 * 4096, Claimed(pinning), bus)))]
      ensures err != 0 ==> pinned == old(pinned) && mapped == old(mapped)
      ensures err == 0 ==> Gained(old(pinned), pinned, Taken(pinning)) && Gained(old(mapped), mapped, bus)
      ensures lostPins == old(lostPins) + (if err == 0 && vaddr < 4096 then multiset(Taken(pinning)) else multiset{})
      ensures lostMaps == old(lostMaps) + (if err == 0 && vaddr < 4096 then multiset(bus) else multiset{})
    {
      hide Occurs, HeldByAll, Held, Insert, Claimed, Taken, PageOf, Balance, SameItems, Gained, Released, Items;
      if nPages < 1 {
        return EINVAL;
      }
      if pinning.PinFailed? {
        return pinning.err;
      }
      PageIs(vaddr, vaddr);
      PinPages(Taken(pinning));
      MapForDma(bus);
      var md := Map(PageOf(vaddr), Claimed(pinning), bus);
      ghost var before, zero := refs[..], md.vaddr == 0;
      InsertMapping(i, md);
      BalanceStep(old(pinned), pinned, lostPins, before, refs[..], Pin, Taken(pinning), Claimed(pinning), zero);
      BalanceStep(old(mapped), mapped, lostMaps, before, refs[..], Dma, bus, bus, zero);
      ClaimedTaken(pinning);
      SameSelf(bus);
      lostPins := lostPins + if zero then multiset(Taken(pinning)) else multiset{};
      lostMaps := lostMaps + if zero then multiset(bus) else multiset{};
      return 0;
    }

    /** list_insert into slot i's list, whose result nobody looks at. */
    method InsertMapping(i: nat, md: Map)
      requires i < refs.Length
      modifies refs
      ensures refs[..] == old(refs[..])[i := old(refs[i]).(maps := Insert(old(refs[i].maps), md))]
      ensures forall x :: HeldByAll(refs[..], Pin, x)
                == HeldByAll(old(refs[..]), Pin, x) + (if md.vaddr == 0 then 0 else Occurs(md.pages, x))
      ensures forall x :: HeldByAll(refs[..], Dma, x)
                == HeldByAll(old(refs[..]), Dma, x) + (if md.vaddr == 0 then 0 else Occurs(md.addrs, x))
    {
      hide Insert;
      ghost var before := refs[..];
      refs[i] := refs[i].(maps := Insert(refs[i].maps, md));
      assert refs[..] == before[i := refs[i]];
      forall kind, x
        ensures HeldByAll(refs[..], kind, x) == HeldByAll(before, kind, x) + (if md.vaddr == 0 then 0 else Occurs(Items(md, kind), x))
      {
        TotalsUpdate(before, i, refs[i], kind, x);
        InsertHeld(before[i].maps, md, kind, x);
      }
      assert Items(md, Pin) == md.pages && Items(md, Dma) == md.addrs;
    }

    /** unmap_user_pages: out of the list, every address unmapped, every page put, once each. */
    method UnmapUserPages(i: nat, k: nat)
      requires Conserved() && i < refs.Length && k < |refs[i].maps|
      modifies this`pinned, this`mapped, refs
      ensures Conserved()
      ensures refs[..] == old(refs[..])[i := old(refs[i]).(maps := Without(old(refs[i].maps), k))]
      ensures Released(old(pinned), pinned, old(refs[i].maps[k].pages))
      ensures Released(old(mapped), mapped, old(refs[i].maps[k].addrs))
    {
      var m := refs[i].maps[k];
      ghost var before := refs[..];
      refs[i] := refs[i].(maps := Without(refs[i].maps, k));
      assert refs[..] == before[i := refs[i]];
      forall kind, x ensures HeldByAll(before, kind, x) == HeldByAll(refs[..], kind, x) + Occurs(Items(m, kind), x) {
        TotalsUpdate(before, i, refs[i], kind, x);
        WithoutHeld(before[i].maps, k, kind, x);
      }
      UnmapAll(m.addrs);
      PutAll(m.pages);
    }

    /** ctrl_ref_get: take the slot unless its flag is set. */
    method CtrlRefGet(i: nat, dev: nat, pid: nat) returns (taken: bool)
      requires Conserved() && i < refs.Length && (!refs[i].inUse ==> refs[i].maps == [])
      modifies refs
      ensures taken == !old(refs[i]).inUse && Conserved()
      ensures refs[..] == if taken then old(refs[..])[i := Ref(true, Some(dev), pid, [])] else old(refs[..])
    {
      if refs[i].inUse {
        return false;
      }
      ghost var before := refs[..];
      refs[i] := Ref(true, Some(dev), pid, []);
      assert refs[..] == before[i := refs[i]];
      forall kind, x ensures HeldByAll(refs[..], kind, x) == HeldByAll(before, kind, x) { TotalsUpdate(before, i, refs[i], kind, x); }
      return true;
    }

    /** ctrl_ref_put: drain the list, then free the slot; what the slot held is released, nothing else. */
    method CtrlRefPut(i: nat)
      requires Conserved() && i < refs.Length
      modifies this`pinned, this`mapped, refs
      ensures Conserved() && refs[..] == old(refs[..])[i := Ref(false, None, 0, [])]
      ensures forall x: nat :: pinned[x] + Held(old(refs[i]).maps, Pin, x) == old(pinned)[x]
      ensures forall x: nat :: mapped[x] + Held(old(refs[i]).maps, Dma, x) == old(mapped)[x]
    {
      hide HeldByAll, Held, Ordered, Balance, Occurs, Released;
      ghost var all := refs[i].maps;
      while refs[i].maps != []
        invariant Conserved() && refs[..] == old(refs[..])[i := old(refs[i]).(maps := refs[i].maps)]
        invariant forall x: nat :: pinned[x] + Held(old(refs[i]).maps, Pin, x) == old(pinned)[x] + Held(refs[i].maps, Pin, x)
        invariant forall x: nat :: mapped[x] + Held(old(refs[i]).maps, Dma, x) == old(mapped)[x] + Held(refs[i].maps, Dma, x)
        decreases |refs[i].maps|
      {
        ghost var maps, pins, dmas := refs[i].maps, pinned, mapped;
        UnmapUserPages(i, 0);
        assert maps[..0] + maps[1..] == maps[1..];
        Drained(old(pinned), pins, pinned, all, maps, Pin);
        Drained(old(mapped), dmas, mapped, all, maps, Dma);
      }
      assert forall kind, x :: Held([], kind, x) == 0 by { NothingHeld(); }
      ghost var before := refs[..];
      refs[i] := FREE;
      assert refs[..] == before[i := FREE];
      FreeBalance(before, i, pinned, lostPins, Pin);
      FreeBalance(before, i, mapped, lostMaps, Dma);
    }

    // -------------------------------------------------------------- module/pci.c

    /** Slots whose flag is clear are empty, slots in use belong to a device; lists are ordered; resources are conserved. */
    ghost predicate Valid()
      reads this, refs
    {
      && Conserved()
      && (forall i | 0 <= i < refs.Length :: if refs[i].inUse then refs[i].ctrl.Some? else refs[i] == FREE)
      && (forall i | 0 <= i < refs.Length :: Ordered(refs[i].maps))
    }

    /** find_ref: the first slot of the device, and of the owner if one is given. */
    method FindRef(dev: nat, owner: Option<nat>) returns (ref: Option<nat>)
      ensures ref.Some? ==> ref.value < refs.Length && Owned(refs[ref.value], dev, owner)
      ensures forall j | 0 <= j < (if ref.Some? then ref.value else refs.Length) :: !Owned(refs[j], dev, owner)
      ensures ref.Some? ==> refs[ref.value].ctrl == Some(dev) && (owner.Some? ==> refs[ref.value].owner == owner.value)
      ensures forall j | 0 <= j < (if ref.Some? then ref.value else refs.Length) ::
                refs[j].ctrl != Some(dev) || (owner.Some? && refs[j].owner != owner.value)
    {
      var i := 0;
      while i < refs.Length
        invariant 0 <= i <= refs.Length && forall j | 0 <= j < i :: !Owned(refs[j], dev, owner)
      {
        if refs[i].ctrl == Some(dev) && (owner.None? || refs[i].owner == owner.value) {
          return Some(i);
        }
        i := i + 1;
      }
      return None;
    }

    /** ref_get: the first free slot goes to the caller. */
    method RefGet(dev: Option<nat>, pid: nat) returns (err: int)
      requires Valid()
      modifies refs
      ensures Valid()
      ensures err == if dev.None? then EBADF else if forall i | 0 <= i < refs.Length :: old(refs[i].inUse) then ENOSPC else 0
      ensures err != 0 ==> refs[..] == old(refs[..])
      ensures err == 0 ==>
                (exists i: nat :: FirstFree(old(refs[..]), i) && refs[..] == old(refs[..])[i := Ref(true, dev, pid, [])])
    {
      hide Balance, HeldByAll, Ordered;
      NoneOrdered();
      if dev.None? {
        return EBADF;
      }
      var i := 0;
      while i < refs.Length
        invariant 0 <= i <= refs.Length && refs[..] == old(refs[..]) && Conserved()
        invariant forall j | 0 <= j < i :: refs[j].inUse
      {
        var taken := CtrlRefGet(i, dev.value, pid);
        if taken {
          assert FirstFree(old(refs[..]), i);
          return 0;
        }
        i := i + 1;
      }
      return ENOSPC;
    }

    /** ref_put: the caller's first slot on the device is drained and freed. */
    method RefPut(dev: Option<nat>, pid: nat) returns (err: int)
      requires Valid()
      modifies this`pinned, this`mapped, refs
      ensures Valid()
      ensures err == 0 || err == EBADF
      ensures err == EBADF ==> refs[..] == old(refs[..]) && pinned == old(pinned) && mapped == old(mapped)
      ensures err == EBADF <==> dev.None? || NoneOwned(old(refs[..]), dev.value, pid)
      ensures err == 0 ==>
                (exists i: nat :: FirstOwned(old(refs[..]), i, dev.value, pid) && refs[..] == old(refs[..])[i := FREE])
    {
      hide Balance, Ordered, HeldByAll, Held;
      NoneOrdered();
      if dev.None? {
        return EBADF;
      }
      var ref := FindRef(dev.value, Some(pid));
      if ref.None? {
        return EBADF;
      }
      assert FirstOwned(old(refs[..]), ref.value, dev.value, pid);
      CtrlRefPut(ref.value);
      return 0;
    }

    /** ref_ioctl, NVM_MAP_HOST_MEMORY. */
    method IoctlMap(dev: nat, pid: nat, vaddr: nat, nPages: nat, pinning: Pinning, bus: seq<nat>) returns (err: int)
      requires Valid() && Possible(pinning, bus)
      modifies this`pinned, this`mapped, this`lostPins, this`lostMaps, refs
      ensures Valid() <==> err != 0 || vaddr < 4096 || Claimed(pinning) == Taken(pinning)
      ensures err != 0 ==> refs[..] == old(refs[..]) && pinned == old(pinned) && mapped == old(mapped)
      ensures err == if NoneOwned(old(refs[..]), dev, pid) then EBADF
                     else if nPages >= maxPages || nPages < 1 then EINVAL
                     else if pinning.PinFailed? then pinning.err else 0
      ensures lostPins == old(lostPins) + (if err == 0 && vaddr < 4096 then multiset(Taken(pinning)) else multiset{})
      ensures lostMaps == old(lostMaps) + (if err == 0 && vaddr < 4096 then multiset(bus) else multiset{})
      ensures err == 0 ==> Gained(old(pinned), pinned, Taken(pinning)) && Gained(old(mapped), mapped, bus)
      ensures err == 0 ==>
                (exists i: nat :: FirstOwned(old(refs[..]), i, dev, pid)
                   && refs[..] == old(refs[..])[i := old(refs[i]).(maps := Insert(old(refs[i].maps), Map(vaddr / 4096 * 4096, Claimed(pinning), bus)))])
    {
      hide HeldByAll, Held, Occurs, Insert, Balance, Gained, Released, PageOf;
      PageIs(vaddr, vaddr);
      var ref := FindRef(dev, Some(pid));
      if ref.None? {
        return EBADF;
      }
      if nPages >= maxPages {
        return EINVAL;
      }
      assert FirstOwned(old(refs[..]), ref.value, dev, pid);
      InsertOrdered(refs[ref.value].maps, Map(PageOf(vaddr), Claimed(pinning), bus));
      err := MapUserPages(ref.value, vaddr, nPages, pinning, bus);
    }

    /** ref_ioctl, NVM_UNMAP_MEMORY: the most recent mapping of the address on the caller's slot. */
    method IoctlUnmap(dev: nat, pid: nat, addr: nat) returns (err: int)
      requires Valid()
      modifies this`pinned, this`mapped, refs
      ensures Valid()
      ensures err != 0 ==> refs[..] == old(refs[..]) && pinned == old(pinned) && mapped == old(mapped)
      ensures err == EBADF <==> NoneOwned(old(refs[..]), dev, pid)
      ensures forall i: nat | FirstOwned(old(refs[..]), i, dev, pid) ::
                err == EINVAL <==> forall m <- old(refs[i].maps) :: m.vaddr != addr / 4096 * 4096
      ensures forall i: nat | FirstOwned(old(refs[..]), i, dev, pid) ::
                match Find(old(refs[i].maps), addr / 4096 * 4096)
                case None => err == EINVAL
                case Some(k) =>
                  && err == 0 && Released(old(pinned), pinned, old(refs[i].maps)[k].pages) && Released(old(mapped), mapped, old(refs[i].maps)[k].addrs)
                  && refs[..] == old(refs[..])[i := old(refs[i]).(maps := Without(old(refs[i].maps), k))]
    {
      hide Balance, HeldByAll, Held, Occurs, Released, PageOf;
      PageIs(addr, addr);
      var ref := FindRef(dev, Some(pid));
      if ref.None? {
        return EBADF;
      }
      assert FirstOwned(old(refs[..]), ref.value, dev, pid);
      assert forall i: nat | FirstOwned(old(refs[..]), i, dev, pid) :: i == ref.value;
      FindExact(refs[ref.value].maps, PageOf(addr));
      var map_ := Find(refs[ref.value].maps, PageOf(addr));
      if map_.None? {
        return EINVAL;
      }
      WithoutOrdered(refs[ref.value].maps, map_.value);
      UnmapUserPages(ref.value, map_.value);
      return 0;
    }

    /**
     * What is mapped and then unmapped by any address of its page is given back: the caller's table,
     * pins and DMA mappings are as before, whatever other mappings of the page there are.
     */
    method MapUnmap(dev: nat, pid: nat, vaddr: nat, nPages: nat, pinning: Pinning, bus: seq<nat>, addr: nat) returns (err: int, err': int)
      requires Valid() && Possible(pinning, bus) && Claimed(pinning) == Taken(pinning)
      requires vaddr >= 4096 && addr / 4096 == vaddr / 4096
      modifies this`pinned, this`mapped, this`lostPins, this`lostMaps, refs
      ensures Valid()
      ensures err == if NoneOwned(old(refs[..]), dev, pid) then EBADF
                     else if nPages >= maxPages || nPages < 1 then EINVAL
                     else if pinning.PinFailed? then pinning.err else 0
      ensures err' == err
      ensures refs[..] == old(refs[..]) && pinned == old(pinned) && mapped == old(mapped)
    {
      hide Balance, HeldByAll, Held, Occurs, NoneOwned, Insert, Find, Without, Gained, Released, Owned;
      ghost var before := refs[..];
      err := IoctlMap(dev, pid, vaddr, nPages, pinning, bus);
      if err != 0 {
        return err, err;
      }
      ghost var i: nat :| FirstOwned(before, i, dev, pid)
        && refs[..] == before[i := before[i].(maps := Insert(before[i].maps, Map(vaddr / 4096 * 4096, Claimed(pinning), bus)))];
      ghost var m, pins, dmas := Map(vaddr / 4096 * 4096, Claimed(pinning), bus), pinned, mapped;
      assert refs[i].maps == Insert(before[i].maps, m);
      FirstKept(before, i, refs[i].maps, dev, pid);
      InsertGone(before[i].maps, m);
      err' := IoctlUnmap(dev, pid, addr);
      TakenBack(old(pinned), pins, pinned, Taken(pinning));
      TakenBack(old(mapped), dmas, mapped, bus);
      assert refs[..] == before;
    }

    /** remove_pci_dev: drain every reference to the device; the loop ends with none left. */
    method RemovePciDev(dev: nat)
      requires Valid()
      modifies this`pinned, this`mapped, refs
      ensures Valid()
      ensures refs[..] == Evicted(old(refs[..]), dev)
    {
      hide Balance, Ordered, HeldByAll, Held, Occurs;
      ghost var before := refs[..];
      var ref := FindRef(dev, None);
      while ref.Some?
        invariant Valid()
        invariant ref.Some? ==> ref.value < refs.Length && Owned(refs[ref.value], dev, None)
        invariant ref.None? ==> forall j | 0 <= j < refs.Length :: !Owned(refs[j], dev, None)
        invariant Evicted(refs[..], dev) == Evicted(before, dev)
        decreases References(refs[..], dev)
      {
        ghost var now := refs[..];
        CtrlRefPut(ref.value);
        NoneOrdered();
        EvictOne(now, ref.value, dev);
        ref := FindRef(dev, None);
      }
      assert refs[..] == Evicted(refs[..], dev);
    }

    /**
     * Any sequence of calls, in any order and by any processes, does to the table what each call does
     * in turn, and conserves the resources as long as no mapping claims pages that nobody pinned;
     * `done` calls are carried out, and only the last can be one that does. `tables` are the tables
     * between the calls. Nothing is lost unless page 0 is mapped.
     */
    method Perform(ops: seq<Op>) returns (done: nat, ghost tables: seq<seq<Ref>>)
      requires Valid() && (forall op <- ops :: Admissible(op))
      modifies this`pinned, this`mapped, this`lostPins, this`lostMaps, refs
      ensures done <= |ops| && (Valid() ==> done == |ops|)
      ensures !Valid() ==> done > 0 && Overclaims(ops[done - 1])
      ensures |tables| == done + 1 && tables[0] == old(refs[..]) && tables[done] == refs[..]
      ensures forall k {:trigger ops[k]} | 0 <= k < done :: OpStep(tables[k], ops[k], maxPages, tables[k + 1])
      ensures (forall op <- ops :: op.MapMemory? ==> op.vaddr >= 4096) ==> lostPins == old(lostPins) && lostMaps == old(lostMaps)
    {
      hide Ordered, Balance, HeldByAll, Held, Evicted, NoneOwned, FirstOwned, OpStep;
      done, tables := 0, [refs[..]];
      while done < |ops|
        invariant done <= |ops| && Valid()
        invariant |tables| == done + 1 && tables[0] == old(refs[..]) && tables[done] == refs[..]
        invariant forall k {:trigger ops[k]} | 0 <= k < done :: OpStep(tables[k], ops[k], maxPages, tables[k + 1])
        invariant (forall op <- ops :: op.MapMemory? ==> op.vaddr >= 4096) ==> lostPins == old(lostPins) && lostMaps == old(lostMaps)
      {
        var op := ops[done];
        assert op in ops;
        var stop := PerformOne(op);
        done, tables := done + 1, tables + [refs[..]];
        if stop { return; }
      }
    }

    /** One call; true if it leaves a list claiming pages that are not pinned. */
    method PerformOne(op: Op) returns (stop: bool)
      requires Valid() && Admissible(op)
      modifies this`pinned, this`mapped, this`lostPins, this`lostMaps, refs
      ensures Valid() <==> !stop
      ensures stop ==> Overclaims(op)
      ensures OpStep(old(refs[..]), op, maxPages, refs[..])
      ensures (op.MapMemory? ==> op.vaddr >= 4096) ==> lostPins == old(lostPins) && lostMaps == old(lostMaps)
    {
      hide Ordered, Balance, HeldByAll, Held, Evicted, NoneOwned, Owned, FirstFree, Released, Gained, Insert, Find, Without;
      stop := false;
      match op {
        case Open(dev, pid) => var _ := RefGet(dev, pid);
        case Close(dev, pid) =>
          var _ := RefPut(dev, pid);
        case MapMemory(dev, pid, vaddr, nPages, pinning, bus) =>
          ghost var before := refs[..];
          var err := IoctlMap(dev, pid, vaddr, nPages, pinning, bus);
          stop := err == 0 && Overclaims(op);
          if err == 0 {
            ghost var i: nat :| FirstOwned(before, i, dev, pid)
              && refs[..] == before[i := before[i].(maps := Insert(before[i].maps, Map(vaddr / 4096 * 4096, Claimed(pinning), bus)))];
            assert Inserts(before, i, Map(vaddr / 4096 * 4096, Claimed(pinning), bus), refs[..]);
          }
        case UnmapMemory(dev, pid, addr) =>
          ghost var before := refs[..];
          var _ := IoctlUnmap(dev, pid, addr);
          if !NoneOwned(before, dev, pid) {
            ghost var i := SomeOwned(before, dev, pid);
            assert TakesOut(before, i, addr / 4096 * 4096, refs[..]);
          }
        case RemoveDevice(dev) => RemovePciDev(dev);
      }
    }
  }

  /** The table after one call. */
  ghost predicate OpStep(refs: seq<Ref>, op: Op, maxPages: nat, refs': seq<Ref>) {
    match op
    case Open(dev, pid) =>
      if dev.None? || forall i | 0 <= i < |refs| :: refs[i].inUse then refs' == refs
      else exists i: nat :: FirstFree(refs, i) && refs' == refs[i := Ref(true, dev, pid, [])]
    case Close(dev, pid) =>
      if dev.None? || NoneOwned(refs, dev.value, pid) then refs' == refs
      else exists i: nat :: FirstOwned(refs, i, dev.value, pid) && refs' == refs[i := Ref(false, None, 0, [])]
    case MapMemory(dev, pid, vaddr, nPages, pinning, bus) =>
      if NoneOwned(refs, dev, pid) || nPages >= maxPages || nPages < 1 || pinning.PinFailed? then refs' == refs
      else exists i: nat :: FirstOwned(refs, i, dev, pid) && Inserts(refs, i, Map(vaddr / 4096 * 4096, Claimed(pinning), bus), refs')
    case UnmapMemory(dev, pid, addr) =>
      if NoneOwned(refs, dev, pid) then refs' == refs
      else exists i: nat :: FirstOwned(refs, i, dev, pid) && TakesOut(refs, i, addr / 4096 * 4096, refs')
    case RemoveDevice(dev) => refs' == Evicted(refs, dev)
  }

  ghost predicate Inserts(refs: seq<Ref>, i: nat, m: Map, refs': seq<Ref>)
    requires i < |refs|
  {
    refs' == refs[i := refs[i].(maps := Insert(refs[i].maps, m))]
  }

  ghost predicate TakesOut(refs: seq<Ref>, i: nat, v: nat, refs': seq<Ref>)
    requires i < |refs|
  {
    match Find(refs[i].maps, v)
    case None => refs' == refs
    case Some(k) => refs' == refs[i := refs[i].(maps := Without(refs[i].maps, k))]
  }

  /** A process that owns some slot of the device has a first one. */
  lemma {:induction false} FirstOf(refs: seq<Ref>, dev: nat, pid: nat, n: nat) returns (i: nat)
    requires n < |refs| && Owned(refs[n], dev, Some(pid))
    ensures FirstOwned(refs, i, dev, pid)
  {
    if j: nat :| j < n && Owned(refs[j], dev, Some(pid)) { i := FirstOf(refs, dev, pid, j); } else { i := n; }
  }

  lemma SomeOwned(refs: seq<Ref>, dev: nat, pid: nat) returns (i: nat)
    requires !NoneOwned(refs, dev, pid)
    ensures FirstOwned(refs, i, dev, pid)
  {
    var n: nat :| n < |refs| && Owned(refs[n], dev, Some(pid));
    i := FirstOf(refs, dev, pid, n);
  }

  /** A new mapping is the one found, and taking it out leaves what was there. */
  lemma InsertGone(maps: seq<Map>, m: Map)
    requires Ordered(maps) && m.vaddr > 0
    ensures var maps' := Insert(maps, m);
            match Find(maps', m.vaddr) case None => false case Some(k) => maps'[k] == m && Without(maps', k) == maps
  {
    hide Insert, Smaller, Find;
    InsertShape(maps, m);
    InsertOrdered(maps, m);
    FindExact(Insert(maps, m), m.vaddr);
    InsertSmaller(maps, m, m.vaddr);
  }

  /** What was gained and then released is as before. */
  lemma TakenBack(a: multiset<nat>, b: multiset<nat>, c: multiset<nat>, items: seq<nat>)
    requires Gained(a, b, items) && Released(b, c, items)
    ensures c == a
  {
    hide Occurs;
    forall x: nat ensures c[x] == a[x] { assert b[x] == a[x] + Occurs(items, x); }
  }

  /** Changing the mappings of a slot does not change whose it is. */
  lemma FirstKept(refs: seq<Ref>, i: nat, maps: seq<Map>, dev: nat, pid: nat)
    requires FirstOwned(refs, i, dev, pid)
    ensures FirstOwned(refs[i := refs[i].(maps := maps)], i, dev, pid)
  {}

  predicate Owned(r: Ref, dev: nat, owner: Option<nat>) {
    r.ctrl == Some(dev) && (owner.None? || r.owner == owner.value)
  }

  ghost predicate NoneOwned(refs: seq<Ref>, dev: nat, pid: nat) {
    forall i | 0 <= i < |refs| :: !Owned(refs[i], dev, Some(pid))
  }

  /** Slot i is the one find_ref returns for the process. */
  ghost predicate FirstOwned(refs: seq<Ref>, i: nat, dev: nat, pid: nat) {
    i < |refs| && Owned(refs[i], dev, Some(pid)) && forall j | 0 <= j < i :: !Owned(refs[j], dev, Some(pid))
  }

  ghost predicate FirstFree(refs: seq<Ref>, i: nat) {
    i < |refs| && !refs[i].inUse && forall j | 0 <= j < i :: refs[j].inUse
  }

  datatype Op =
    | Open(dev: Option<nat>, pid: nat)
    | Close(dev: Option<nat>, pid: nat)
    | MapMemory(device: nat, pid: nat, vaddr: nat, nPages: nat, pinning: Pinning, bus: seq<nat>)
    | UnmapMemory(device: nat, pid: nat, addr: nat)
    | RemoveDevice(device: nat)

  /** What the kernel's own calls may return. */
  ghost predicate Admissible(op: Op) {
    op.MapMemory? ==> Possible(op.pinning, op.bus)
  }

  /** A mapping that, if it succeeds, enters a list claiming pages that are not pinned. */
  predicate Overclaims(op: Op) {
    op.MapMemory? && op.vaddr >= 4096 && Claimed(op.pinning) != Taken(op.pinning)
  }

  /** The table with the device's slots freed and all others untouched. */
  ghost function Evicted(refs: seq<Ref>, dev: nat): seq<Ref> {
    seq(|refs|, i requires 0 <= i < |refs| => if Owned(refs[i], dev, None) then FREE else refs[i])
  }

  ghost function References(refs: seq<Ref>, dev: nat): nat {
    if refs == [] then 0 else (if Owned(refs[0], dev, None) then 1 else 0) + References(refs[1..], dev)
  }

  lemma {:induction false} EvictOne(refs: seq<Ref>, i: nat, dev: nat)
    requires i < |refs| && Owned(refs[i], dev, None)
    ensures Evicted(refs[i := FREE], dev) == Evicted(refs, dev)
    ensures References(refs[i := FREE], dev) < References(refs, dev)
  {
    if i > 0 {
      EvictOne(refs[1..], i - 1, dev);
      assert refs[i := FREE][1..] == refs[1..][i - 1 := FREE];
    }
  }

  lemma TakeOne(s: seq<nat>, i: nat, x: nat)
    requires i < |s|
    ensures Occurs(s[..i + 1], x) == Occurs(s[..i], x) + (if s[i] == x then 1 else 0)
  {
    assert s[..i + 1] == s[..i] + [s[i]];
    OccursConcat(s[..i], [s[i]], x);
  }
}
