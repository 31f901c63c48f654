/**
 The scanner of the flattened device tree: a recursive walk over a block of big-endian
 words that reports each node and property to callbacks, and overwrites the nodes that
 the close callback rejects.  The format is section 5.4 of the Devicetree Specification,
 v0.4.
 */
module FdtScan {
  import opened Base

  type Word = bv32                    // as it lies in memory

  const FDT_BEGIN_NODE: Word := 1
  const FDT_END_NODE: Word := 2
  const FDT_PROP: Word := 3
  const FDT_NOP: Word := 4
  const FDT_END: Word := 9

  function Bswap(x: Word): Word {
    var y := ((x & 0x00FF00FF) << 8) | ((x & 0xFF00FF00) >> 8);
    ((y & 0x0000FFFF) << 16) | ((y & 0xFFFF0000) >> 16)
  }

  /** bswap reverses the four bytes, so it undoes itself. */
  lemma BswapReverses(x: Word)
    ensures Bswap(x) == (x << 24) | ((x << 8) & 0x00FF0000) | ((x >> 8) & 0x0000FF00) | (x >> 24)
    ensures Bswap(Bswap(x)) == x
  {
  }

  // ---------------------------------------------------------------------
  // Trees and their encoding
  // ---------------------------------------------------------------------

  // What a node holds, in order: padding, properties, nodes.
  datatype Item =
    | Nop
    | Prop(len: Word, nameOff: Word, value: seq<Word>)
    | Child(name: seq<Word>, body: seq<Item>)

  // The scanner keeps the length, and rounds it up, in a 32-bit signed integer.
  const MAX_LEN := 0x7FFF_FFFF - 3

  function ValueWords(len: Word): nat { (len as int + 3) / 4 }

  predicate ByteZero(w: Word) { w & 0xFF == 0 || w & 0xFF00 == 0 || w & 0xFF0000 == 0 || w & 0xFF000000 == 0 }

  // The words of a NUL-terminated string.
  predicate NameOk(name: seq<Word>) {
    && name != [] && ByteZero(name[|name| - 1])
    && forall i {:trigger name[i]} :: 0 <= i < |name| - 1 ==> !ByteZero(name[i])
  }

  predicate ItemOk(item: Item)
    decreases item, 0
  {
    match item
    case Nop => true
    case Prop(len, _, value) => len as int <= MAX_LEN && |value| == ValueWords(len)
    case Child(name, body) => NameOk(name) && ItemsOk(body)
  }

  // Properties come before nodes.
  predicate ItemsOk(items: seq<Item>)
    decreases items, 1
  {
    && (forall i {:trigger items[i]} :: 0 <= i < |items| ==> ItemOk(items[i]))
    && (forall i, j {:trigger items[i], items[j]} :: 0 <= i < j < |items| ==> !(items[i].Child? && items[j].Prop?))
  }

  function EncItem(item: Item): (s: seq<Word>)
    ensures s != []
    decreases item, 1
  {
    match item
    case Nop => [Bswap(FDT_NOP)]
    case Prop(len, name, value) => [Bswap(FDT_PROP), Bswap(len), Bswap(name)] + value
    case Child(name, body) => [Bswap(FDT_BEGIN_NODE)] + name + Enc(body) + [Bswap(FDT_END_NODE)]
  }

  function Enc(items: seq<Item>): seq<Word>
    decreases items, 0
  {
    if items == [] then [] else EncItem(items[0]) + Enc(items[1..])
  }

  // ---------------------------------------------------------------------
  // Events
  // ---------------------------------------------------------------------

  datatype Event =
    | OpenNode(name: seq<Word>)
    | SeeProp(len: Word, nameOff: Word, value: seq<Word>)
    | DoneProps(name: seq<Word>)
    | CloseNode(name: seq<Word>)

  // Whether the close callback rejects a node may depend on all that it has been told.
  type Reject = seq<Event> -> bool

  // Where the loop over a node's items stands: what the items have become, what has been
  // reported, and whether a node has been seen.
  datatype Scan = Scan(items: seq<Item>, trace: seq<Event>, last: bool)

  function Nops(n: nat): seq<Item> { seq(n, _ => Nop) }

  function DoneEvent(node: Option<seq<Word>>, last: bool): seq<Event> {
    if last || node.None? then [] else [DoneProps(node.value)]
  }

  function Step(node: Option<seq<Word>>, s: Scan, item: Item, reject: Reject): Scan
    decreases item, 0
  {
    match item
    case Nop => s.(items := s.items + [Nop])
    case Prop(len, name, value) => s.(items := s.items + [item], trace := s.trace + [SeeProp(len, name, value)])
    case Child(name, body) =>
      var start := Scan([], s.trace + DoneEvent(node, s.last) + [OpenNode(name)], false);
      var inner := Finish(Some(name), Steps(Some(name), body, |body|, start, reject));
      var trace := inner.trace + [CloseNode(name)];
      var kept := if reject(trace) then Nops(|EncItem(item)|) else [Child(name, inner.items)];
      Scan(s.items + kept, trace, true)
  }

  function Steps(node: Option<seq<Word>>, items: seq<Item>, k: nat, s: Scan, reject: Reject): Scan
    requires k <= |items|
    decreases items, 1, k
  {
    if k == 0 then s else Step(node, Steps(node, items, k - 1, s, reject), items[k - 1], reject)
  }

  function Finish(node: Option<seq<Word>>, s: Scan): Scan {
    s.(trace := s.trace + DoneEvent(node, s.last), last := true)
  }

  // ---------------------------------------------------------------------
  // The tree itself, without padding
  // ---------------------------------------------------------------------

  datatype Tree = Tree(name: seq<Word>, props: seq<Event>, kids: seq<Tree>)

  function Props(items: seq<Item>, k: nat): seq<Event>
    requires k <= |items|
  {
    if k == 0 then []
    else if items[k - 1].Prop?
    then Props(items, k - 1) + [SeeProp(items[k - 1].len, items[k - 1].nameOff, items[k - 1].value)]
    else Props(items, k - 1)
  }

  function Kids(items: seq<Item>, k: nat): seq<Tree>
    requires k <= |items|
    decreases items, k
  {
    if k == 0 then []
    else if items[k - 1].Child? then
      var body := items[k - 1].body;
      Kids(items, k - 1) + [Tree(items[k - 1].name, Props(body, |body|), Kids(body, |body|))]
    else Kids(items, k - 1)
  }

  // The events of a tree in nested order: the node opens, its properties, done once, its
  // children, the node closes.
  function TreeEvents(t: Tree): seq<Event>
    decreases t, 0
  {
    [OpenNode(t.name)] + t.props + [DoneProps(t.name)] + ForestEvents(t.kids, |t.kids|) + [CloseNode(t.name)]
  }

  function ForestEvents(kids: seq<Tree>, j: nat): seq<Event>
    requires j <= |kids|
    decreases kids, 1, j
  {
    if j == 0 then [] else ForestEvents(kids, j - 1) + TreeEvents(kids[j - 1])
  }

  // The tree without the nodes that are rejected when they close.
  function PruneTree(t: Tree, reject: Reject, before: seq<Event>): Tree
    decreases t, 0
  {
    t.(kids := PruneKids(t.kids, |t.kids|, reject, before + [OpenNode(t.name)] + t.props + [DoneProps(t.name)]))
  }

  function PruneKids(kids: seq<Tree>, j: nat, reject: Reject, before: seq<Event>): seq<Tree>
    requires j <= |kids|
    decreases kids, 1, j
  {
    if j == 0 then []
    else
      var rest := PruneKids(kids, j - 1, reject, before);
      if reject(before + ForestEvents(kids, j)) then rest
      else rest + [PruneTree(kids[j - 1], reject, before + ForestEvents(kids, j - 1))]
  }

  // ---------------------------------------------------------------------
  // The walk reports the tree and leaves the pruned tree
  // ---------------------------------------------------------------------

  // Appending to the items a scan has left.
  lemma {:induction false} PropsAppend(a: seq<Item>, b: seq<Item>, k: nat)
    requires k <= |b|
    ensures Props(a + b, |a| + k) == Props(a, |a|) + Props(b, k)
  {
    if k == 0 {
      PropsPrefix(a, b, |a|);
    } else {
      PropsAppend(a, b, k - 1);
      assert (a + b)[|a| + k - 1] == b[k - 1];
    }
  }

  lemma {:induction false} PropsPrefix(a: seq<Item>, b: seq<Item>, k: nat)
    requires k <= |a|
    ensures Props(a + b, k) == Props(a, k)
  {
    if k > 0 { PropsPrefix(a, b, k - 1); }
  }

  lemma {:induction false} KidsPrefix(a: seq<Item>, b: seq<Item>, k: nat)
    requires k <= |a|
    ensures Kids(a + b, k) == Kids(a, k)
  {
    if k > 0 { KidsPrefix(a, b, k - 1); }
  }

  lemma {:induction false} KidsAppend(a: seq<Item>, b: seq<Item>, k: nat)
    requires k <= |b|
    ensures Kids(a + b, |a| + k) == Kids(a, |a|) + Kids(b, k)
  {
    if k == 0 {
      KidsPrefix(a, b, |a|);
    } else {
      KidsAppend(a, b, k - 1);
      assert (a + b)[|a| + k - 1] == b[k - 1];
    }
  }

  lemma {:induction false} NopsAreNothing(n: nat, k: nat)
    requires k <= n
    ensures Props(Nops(n), k) == [] && Kids(Nops(n), k) == []
  {
    if k > 0 { NopsAreNothing(n, k - 1); }
  }

  // What has been reported before the first node among k items.
  function Start(node: Option<seq<Word>>, items: seq<Item>, k: nat, before: seq<Event>): seq<Event>
    requires k <= |items|
  {
    before + Props(items, k) + DoneEvent(node, false)
  }

  // What has been reported after k items ...
  ghost predicate Told(node: Option<seq<Word>>, items: seq<Item>, k: nat, before: seq<Event>, s: Scan)
    requires k <= |items|
  {
    var kids := Kids(items, k);
    && (s.last <==> kids != [])
    && s.trace == (if s.last then Start(node, items, k, before) + ForestEvents(kids, |kids|)
                   else before + Props(items, k))
  }

  // ... and what they have become.
  ghost predicate Became(node: Option<seq<Word>>, items: seq<Item>, k: nat, before: seq<Event>, left: seq<Item>,
                         reject: Reject)
    requires k <= |items|
  {
    var kids := Kids(items, k);
    && Props(left, |left|) == Props(items, k)
    && Kids(left, |left|) == PruneKids(kids, |kids|, reject, Start(node, items, k, before))
  }

  ghost predicate Reported(node: Option<seq<Word>>, items: seq<Item>, k: nat, before: seq<Event>, s: Scan,
                           reject: Reject)
    requires k <= |items|
  {
    Told(node, items, k, before, s) && Became(node, items, k, before, s.items, reject)
  }

  lemma {:induction false} ForestPrefix(kids: seq<Tree>, t: Tree, j: nat)
    requires j <= |kids|
    ensures ForestEvents(kids + [t], j) == ForestEvents(kids, j)
  {
    hide TreeEvents;
    if j > 0 { ForestPrefix(kids, t, j - 1); }
  }

  lemma {:induction false} PrunePrefix(kids: seq<Tree>, t: Tree, j: nat, reject: Reject, before: seq<Event>)
    requires j <= |kids|
    ensures PruneKids(kids + [t], j, reject, before) == PruneKids(kids, j, reject, before)
  {
    if j > 0 {
      PrunePrefix(kids, t, j - 1, reject, before);
      ForestPrefix(kids, t, j);
      ForestPrefix(kids, t, j - 1);
    }
  }

  // The scan of one node, from its open to its close.
  function Inner(name: seq<Word>, body: seq<Item>, before: seq<Event>, reject: Reject): Scan {
    Finish(Some(name), Steps(Some(name), body, |body|, Scan([], before + [OpenNode(name)], false), reject))
  }

  function TreeOf(name: seq<Word>, body: seq<Item>): Tree { Tree(name, Props(body, |body|), Kids(body, |body|)) }

  lemma InnerReports(name: seq<Word>, body: seq<Item>, before: seq<Event>, reject: Reject)
    requires Reported(Some(name), body, |body|, before + [OpenNode(name)],
                      Steps(Some(name), body, |body|, Scan([], before + [OpenNode(name)], false), reject), reject)
    ensures var inner := Inner(name, body, before, reject);
            && inner.trace + [CloseNode(name)] == before + TreeEvents(TreeOf(name, body))
            && TreeOf(name, inner.items) == PruneTree(TreeOf(name, body), reject, before)
  {
    hide Steps, Props, Kids, ForestEvents, PruneKids;
    NoForest();
    var t := TreeOf(name, body);
    var inner := Inner(name, body, before, reject);
    var start := before + [OpenNode(name)] + t.props + [DoneProps(name)];
    var forest := ForestEvents(t.kids, |t.kids|);
    assert inner.trace == start + forest;
    FiveParts(before, [OpenNode(name)], t.props, [DoneProps(name)], forest, [CloseNode(name)]);
  }

  lemma NoForest()
    ensures ForestEvents([], 0) == []
  {
  }

  lemma FiveParts(a: seq<Event>, b: seq<Event>, c: seq<Event>, d: seq<Event>, e: seq<Event>, f: seq<Event>)
    ensures a + (b + c + d + e + f) == a + b + c + d + e + f
  {
  }

  lemma ForestGrows(kids: seq<Tree>, t: Tree)
    ensures ForestEvents(kids + [t], |kids| + 1) == ForestEvents(kids, |kids|) + TreeEvents(t)
  {
    ForestPrefix(kids, t, |kids|);
  }

  lemma ForestGoesOn(start: seq<Event>, kids: seq<Tree>, t: Tree)
    ensures start + ForestEvents(kids, |kids|) + TreeEvents(t) == start + ForestEvents(kids + [t], |kids| + 1)
  {
    hide TreeEvents, ForestEvents;
    ForestGrows(kids, t);
  }

  lemma PruneGrows(kids: seq<Tree>, t: Tree, reject: Reject, before: seq<Event>)
    ensures PruneKids(kids + [t], |kids| + 1, reject, before) ==
            PruneKids(kids, |kids|, reject, before) +
            (if reject(before + ForestEvents(kids + [t], |kids| + 1)) then []
             else [PruneTree(t, reject, before + ForestEvents(kids, |kids|))])
  {
    ForestPrefix(kids, t, |kids|);
    PrunePrefix(kids, t, |kids|, reject, before);
  }

  lemma NotAKid(items: seq<Item>, k: nat)
    requires ItemsOk(items) && k < |items| && !items[k].Child?
    ensures Kids(items, k + 1) == Kids(items, k)
    ensures items[k].Nop? ==> Props(items, k + 1) == Props(items, k)
    ensures items[k].Prop? ==> Kids(items, k) == []
    ensures items[k].Prop? ==>
      Props(items, k + 1) == Props(items, k) + [SeeProp(items[k].len, items[k].nameOff, items[k].value)]
  {
    hide ItemOk;
    if items[k].Prop? { NoKidsYet(items, k, k); }
  }

  lemma OneItem(item: Item)
    requires !item.Child?
    ensures Kids([item], 1) == []
    ensures Props([item], 1) == if item.Prop? then [SeeProp(item.len, item.nameOff, item.value)] else []
  {
    assert Props([item], 0) == [] && Kids([item], 0) == [];
  }

  lemma NoPrune(reject: Reject, before: seq<Event>)
    ensures PruneKids([], 0, reject, before) == []
  {
  }

  lemma ReportedProp(node: Option<seq<Word>>, items: seq<Item>, k: nat, before: seq<Event>, s: Scan, reject: Reject)
    requires ItemsOk(items) && k < |items| && !items[k].Child? && Reported(node, items, k, before, s, reject)
    ensures Reported(node, items, k + 1, before, Step(node, s, items[k], reject), reject)
  {
    hide Step, Told, Became, ItemsOk;
    ToldProp(node, items, k, before, s, reject);
    BecameProp(node, items, k, before, s.items, reject);
    StepPlain(node, s, items[k], reject);
  }

  lemma StepPlain(node: Option<seq<Word>>, s: Scan, item: Item, reject: Reject)
    requires !item.Child?
    ensures Step(node, s, item, reject).items == s.items + [item]
  {
  }

  lemma ToldProp(node: Option<seq<Word>>, items: seq<Item>, k: nat, before: seq<Event>, s: Scan, reject: Reject)
    requires ItemsOk(items) && k < |items| && !items[k].Child? && Told(node, items, k, before, s)
    ensures Told(node, items, k + 1, before, Step(node, s, items[k], reject))
  {
    hide Steps, Props, Kids, ForestEvents, ItemsOk;
    NotAKid(items, k);
  }

  lemma BecameProp(node: Option<seq<Word>>, items: seq<Item>, k: nat, before: seq<Event>, left: seq<Item>,
                   reject: Reject)
    requires ItemsOk(items) && k < |items| && !items[k].Child? && Became(node, items, k, before, left, reject)
    ensures Became(node, items, k + 1, before, left + [items[k]], reject)
  {
    hide Props, Kids, PruneKids, ItemsOk;
    NotAKid(items, k);
    OneItem(items[k]);
    PropsAppend(left, [items[k]], 1);
    KidsAppend(left, [items[k]], 1);
    NoPrune(reject, Start(node, items, k, before));
    NoPrune(reject, Start(node, items, k + 1, before));
  }

  lemma {:induction false} NoKidsYet(items: seq<Item>, k: nat, j: nat)
    requires ItemsOk(items) && k < |items| && items[k].Prop? && j <= k
    ensures Kids(items, j) == []
  {
    if j > 0 { NoKidsYet(items, k, j - 1); }
  }

  // The tree that a kept or overwritten node leaves.
  lemma LeftOver(c: Item, kept: seq<Item>, items: seq<Item>, gone: bool)
    requires c.Child? && kept == if gone then Nops(|EncItem(c)|) else [Child(c.name, items)]
    ensures Props(kept, |kept|) == [] && Kids(kept, |kept|) == if gone then [] else [TreeOf(c.name, items)]
  {
    hide EncItem;
    if gone {
      NopsAreNothing(|EncItem(c)|, |kept|);
    } else {
      assert Props(kept, 0) == [] && Kids(kept, 0) == [];
    }
  }

  // What has been told before a node opens.
  lemma ToldSoFar(node: Option<seq<Word>>, items: seq<Item>, k: nat, before: seq<Event>, s: Scan)
    requires k <= |items| && Told(node, items, k, before, s)
    ensures s.trace + DoneEvent(node, s.last) ==
            Start(node, items, k, before) + ForestEvents(Kids(items, k), |Kids(items, k)|)
  {
    hide Props, Kids, ForestEvents;
    NoForest();
  }

  lemma BecameChild(node: Option<seq<Word>>, items: seq<Item>, k: nat, before: seq<Event>, left: seq<Item>,
                    kept: seq<Item>, reject: Reject)
    requires k < |items| && items[k].Child? && Became(node, items, k, before, left, reject)
    requires var start, kids, t := Start(node, items, k, before), Kids(items, k), TreeOf(items[k].name, items[k].body);
             var gone := reject(start + ForestEvents(kids + [t], |kids| + 1));
             && Props(kept, |kept|) == []
             && Kids(kept, |kept|) == if gone then [] else [PruneTree(t, reject, start + ForestEvents(kids, |kids|))]
    ensures Became(node, items, k + 1, before, left + kept, reject)
  {
    hide Props, Kids, ForestEvents, PruneKids, PruneTree, TreeOf;
    var start, kids, t := Start(node, items, k, before), Kids(items, k), TreeOf(items[k].name, items[k].body);
    NextKid(items, k);
    PropsAppend(left, kept, |kept|);
    KidsAppend(left, kept, |kept|);
    PruneGrows(kids, t, reject, start);
  }

  lemma ReportedChild(node: Option<seq<Word>>, items: seq<Item>, k: nat, before: seq<Event>, s: Scan, reject: Reject)
    requires k < |items| && items[k].Child? && Reported(node, items, k, before, s, reject)
    requires var c := items[k]; var b := s.trace + DoneEvent(node, s.last);
             Reported(Some(c.name), c.body, |c.body|, b + [OpenNode(c.name)],
                      Steps(Some(c.name), c.body, |c.body|, Scan([], b + [OpenNode(c.name)], false), reject), reject)
    ensures Reported(node, items, k + 1, before, Step(node, s, items[k], reject), reject)
  {
    hide Step, Steps, Props, Kids, ForestEvents, PruneKids, PruneTree, TreeEvents, EncItem, Enc, Nops, Became, Start,
      Inner, TreeOf;
    var c := items[k];
    var b := s.trace + DoneEvent(node, s.last);
    var kids, t := Kids(items, k), TreeOf(c.name, c.body);
    ToldSoFar(node, items, k, before, s);
    InnerReports(c.name, c.body, b, reject);
    var inner := Inner(c.name, c.body, b, reject);
    var trace := inner.trace + [CloseNode(c.name)];
    var kept := if reject(trace) then Nops(|EncItem(c)|) else [Child(c.name, inner.items)];
    StepChild(node, s, c, reject);
    NextKid(items, k);
    SameStart(node, items, k, before);
    ForestGoesOn(Start(node, items, k, before), kids, t);
    LeftOver(c, kept, inner.items, reject(trace));
    BecameChild(node, items, k, before, s.items, kept, reject);
  }

  lemma StepChild(node: Option<seq<Word>>, s: Scan, c: Item, reject: Reject)
    requires c.Child?
    ensures var trace := Inner(c.name, c.body, s.trace + DoneEvent(node, s.last), reject).trace + [CloseNode(c.name)];
            var kept := if reject(trace) then Nops(|EncItem(c)|)
                        else [Child(c.name, Inner(c.name, c.body, s.trace + DoneEvent(node, s.last), reject).items)];
            Step(node, s, c, reject) == Scan(s.items + kept, trace, true)
  {
    hide Steps, EncItem, Nops;
  }

  lemma SameStart(node: Option<seq<Word>>, items: seq<Item>, k: nat, before: seq<Event>)
    requires k < |items| && items[k].Child?
    ensures Start(node, items, k + 1, before) == Start(node, items, k, before)
  {
  }

  lemma NextKid(items: seq<Item>, k: nat)
    requires k < |items| && items[k].Child?
    ensures Kids(items, k + 1) == Kids(items, k) + [TreeOf(items[k].name, items[k].body)]
    ensures Props(items, k + 1) == Props(items, k)
  {
  }

  lemma NothingReported(node: Option<seq<Word>>, items: seq<Item>, before: seq<Event>, reject: Reject)
    ensures Reported(node, items, 0, before, Scan([], before, false), reject)
  {
  }

  /** For every well-formed list of items, the walk reports the events of the tree in
      nested order, done once per node, and what it leaves is the tree without the nodes
      that were rejected. */
  lemma {:induction false} StepsReport(node: Option<seq<Word>>, items: seq<Item>, k: nat, before: seq<Event>,
                                       reject: Reject)
    requires ItemsOk(items) && k <= |items|
    ensures Reported(node, items, k, before, Steps(node, items, k, Scan([], before, false), reject), reject)
    decreases items, k
  {
    hide Step, Reported, ItemsOk;
    if k == 0 {
      NothingReported(node, items, before, reject);
    } else {
      StepsReport(node, items, k - 1, before, reject);
      var s := Steps(node, items, k - 1, Scan([], before, false), reject);
      var item := items[k - 1];
      OneItemOk(items, k - 1);
      if item.Child? {
        StepsReport(Some(item.name), item.body, |item.body|, s.trace + DoneEvent(node, s.last) + [OpenNode(item.name)],
                    reject);
        ReportedChild(node, items, k - 1, before, s, reject);
      } else {
        ReportedProp(node, items, k - 1, before, s, reject);
      }
    }
  }

  // ---------------------------------------------------------------------
  // What a scan leaves is well formed and takes up the same words
  // ---------------------------------------------------------------------

  lemma {:induction false} EncAppend(a: seq<Item>, b: seq<Item>)
    ensures Enc(a + b) == Enc(a) + Enc(b)
    decreases |a|
  {
    if a == [] {
      assert a + b == b;
    } else {
      EncAppend(a[1..], b);
      assert (a + b)[1..] == a[1..] + b;
    }
  }

  lemma EncOne(item: Item)
    ensures Enc([item]) == EncItem(item)
  {
    assert Enc([]) == [];
  }

  function NopWords(n: nat): seq<Word> { seq(n, _ => Bswap(FDT_NOP)) }

  lemma {:induction false} EncNops(n: nat)
    ensures Enc(Nops(n)) == NopWords(n)
  {
    if n > 0 {
      EncNops(n - 1);
      assert Nops(n)[1..] == Nops(n - 1);
      assert NopWords(n) == [Bswap(FDT_NOP)] + NopWords(n - 1);
    }
  }

  ghost predicate NoChild(items: seq<Item>) { forall i {:trigger items[i]} :: 0 <= i < |items| ==> !items[i].Child? }

  // The items a scan has left so far.
  ghost predicate LeftOk(items: seq<Item>, k: nat, s: Scan)
    requires k <= |items|
  {
    ItemsOk(s.items) && |Enc(s.items)| == |Enc(items[..k])| && (!s.last ==> NoChild(s.items))
  }

  lemma KeptLength(c: Item, left: seq<Item>)
    requires c.Child? && |Enc(left)| == |Enc(c.body)|
    ensures |EncItem(Child(c.name, left))| == |EncItem(c)|
  {
  }

  lemma LeftNext(items: seq<Item>, k: nat, s: Scan, kept: seq<Item>, last: bool, trace: seq<Event>)
    requires k < |items| && LeftOk(items, k, s) && ItemsOk(kept) && |Enc(kept)| == |EncItem(items[k])|
    requires (s.last ==> last) && (!last ==> NoChild(kept))
    requires NoChild(s.items) || forall i {:trigger kept[i]} :: 0 <= i < |kept| ==> !kept[i].Prop?
    ensures LeftOk(items, k + 1, Scan(s.items + kept, trace, last))
  {
    hide EncItem, ItemOk;
    EncAppend(s.items, kept);
    EncAppend(items[..k], [items[k]]);
    EncOne(items[k]);
    assert items[..k + 1] == items[..k] + [items[k]];
    var all := s.items + kept;
    forall i, j | 0 <= i < j < |all| ensures !(all[i].Child? && all[j].Prop?) {
      if j < |s.items| {
        assert !(s.items[i].Child? && s.items[j].Prop?);
      } else if i >= |s.items| {
        assert !(kept[i - |s.items|].Child? && kept[j - |s.items|].Prop?);
      } else {
        assert all[j] == kept[j - |s.items|] && all[i] == s.items[i];
      }
    }
    forall i | 0 <= i < |all| ensures ItemOk(all[i]) {
      if i >= |s.items| { assert all[i] == kept[i - |s.items|]; }
    }
  }

  lemma NopsOk(n: nat)
    ensures ItemsOk(Nops(n)) && |Enc(Nops(n))| == n
  {
    EncNops(n);
  }

  lemma OneOk(item: Item)
    requires ItemOk(item)
    ensures ItemsOk([item]) && |Enc([item])| == |EncItem(item)|
  {
    EncOne(item);
  }

  lemma LeftPlain(node: Option<seq<Word>>, items: seq<Item>, k: nat, before: seq<Event>, s: Scan, reject: Reject)
    requires ItemsOk(items) && k < |items| && !items[k].Child? && LeftOk(items, k, s) && Told(node, items, k, before, s)
    ensures LeftOk(items, k + 1, Step(node, s, items[k], reject))
  {
    hide Enc, EncItem, Kids, Props, ForestEvents;
    assert ItemOk(items[k]);
    OneOk(items[k]);
    if items[k].Prop? { NoKidsYet(items, k, k); }
    LeftNext(items, k, s, [items[k]], s.last, Step(node, s, items[k], reject).trace);
  }

  lemma LeftChild(node: Option<seq<Word>>, items: seq<Item>, k: nat, s: Scan, reject: Reject)
    requires ItemsOk(items) && k < |items| && items[k].Child? && LeftOk(items, k, s)
    requires var c := items[k];
             var start := Scan([], s.trace + DoneEvent(node, s.last) + [OpenNode(c.name)], false);
             LeftOk(c.body, |c.body|, Steps(Some(c.name), c.body, |c.body|, start, reject))
    ensures LeftOk(items, k + 1, Step(node, s, items[k], reject))
  {
    hide Enc, EncItem, Steps, Nops;
    var c := items[k];
    assert ItemOk(c);
    var b := s.trace + DoneEvent(node, s.last);
    ChildLeft(c, b, reject);
    var inner := Inner(c.name, c.body, b, reject);
    var trace := inner.trace + [CloseNode(c.name)];
    LeftNext(items, k, s, if reject(trace) then Nops(|EncItem(c)|) else [Child(c.name, inner.items)], true, trace);
  }

  lemma {:induction false} StepsLeft(node: Option<seq<Word>>, items: seq<Item>, k: nat, before: seq<Event>,
                                     reject: Reject)
    requires ItemsOk(items) && k <= |items|
    ensures LeftOk(items, k, Steps(node, items, k, Scan([], before, false), reject))
    decreases items, k
  {
    hide Enc, EncItem, Kids, Props, ForestEvents, PruneKids, Step, LeftOk, Told, Became;
    if k == 0 {
      NothingLeft(items, before);
    } else {
      StepsLeft(node, items, k - 1, before, reject);
      StepsReport(node, items, k - 1, before, reject);
      var s := Steps(node, items, k - 1, Scan([], before, false), reject);
      var item := items[k - 1];
      assert ItemOk(item);
      if item.Child? {
        StepsLeft(Some(item.name), item.body, |item.body|, s.trace + DoneEvent(node, s.last) + [OpenNode(item.name)],
                  reject);
        LeftChild(node, items, k - 1, s, reject);
      } else {
        LeftPlain(node, items, k - 1, before, s, reject);
      }
    }
  }

  lemma NothingLeft(items: seq<Item>, before: seq<Event>)
    ensures LeftOk(items, 0, Scan([], before, false))
  {
    assert items[..0] == [];
  }

  lemma ChildLeft(c: Item, b: seq<Event>, reject: Reject)
    requires c.Child? && NameOk(c.name)
    requires var start := Scan([], b + [OpenNode(c.name)], false);
             LeftOk(c.body, |c.body|, Steps(Some(c.name), c.body, |c.body|, start, reject))
    ensures var inner := Inner(c.name, c.body, b, reject);
            var kept := if reject(inner.trace + [CloseNode(c.name)]) then Nops(|EncItem(c)|)
                        else [Child(c.name, inner.items)];
            && ItemsOk(kept) && |Enc(kept)| == |EncItem(c)|
            && forall i {:trigger kept[i]} :: 0 <= i < |kept| ==> !kept[i].Prop?
  {
    hide Steps;
    assert c.body[..|c.body|] == c.body;
    var inner := Inner(c.name, c.body, b, reject);
    if reject(inner.trace + [CloseNode(c.name)]) {
      NopsOk(|EncItem(c)|);
    } else {
      KeptLength(c, inner.items);
      OneOk(Child(c.name, inner.items));
    }
  }

  // ---------------------------------------------------------------------
  // The code
  // ---------------------------------------------------------------------

  predicate ByteIsZero(w: Word, j: nat)
    requires j < 4
  {
    w & (if j == 0 then 0xFF else if j == 1 then 0xFF00 else if j == 2 then 0xFF0000 else 0xFF000000) == 0
  }

  lemma ZeroByte(w: Word)
    ensures ByteZero(w) <==> exists j {:trigger ByteIsZero(w, j)} :: 0 <= j < 4 && ByteIsZero(w, j)
  {
    if ByteZero(w) { assert ByteIsZero(w, 0) || ByteIsZero(w, 1) || ByteIsZero(w, 2) || ByteIsZero(w, 3); }
  }

  // strlen of the name at `at`.
  method StrLen(blk: array<Word>, at: nat, ghost name: seq<Word>) returns (n: nat)
    requires NameOk(name) && at + |name| <= blk.Length && blk[at..at + |name|] == name
    ensures n / 4 == |name| - 1
  {
    hide ByteZero, ByteIsZero;
    n := 0;
    ghost var last := |name| - 1;
    ZeroByte(name[last]);
    ghost var z :| 0 <= z < 4 && ByteIsZero(name[last], z);
    assert (4 * last + z) / 4 == last && (4 * last + z) % 4 == z;
    while !ByteIsZero(blk[at + n / 4], n % 4)
      invariant n <= 4 * last + z
      decreases 4 * last + z - n
    {
      assert blk[at + n / 4] == name[n / 4];
      n := n + 1;
    }
    assert blk[at + n / 4] == name[n / 4];
    ZeroByte(name[n / 4]);
    assert ByteIsZero(name[n / 4], n % 4);
  }

  // The loop that overwrites a rejected node.
  method Overwrite(blk: array<Word>, from: nat, to: nat)
    requires from <= to <= blk.Length
    modifies blk
    ensures blk[..] == old(blk[..from]) + NopWords(to - from) + old(blk[to..])
  {
    var lex := from;
    while lex != to
      invariant from <= lex <= to
      invariant blk[..from] == old(blk[..from]) && blk[to..] == old(blk[to..])
      invariant forall i {:trigger blk[i]} :: from <= i < lex ==> blk[i] == Bswap(FDT_NOP)
    {
      blk[lex] := Bswap(FDT_NOP);
      lex := lex + 1;
    }
    assert blk[from..to] == NopWords(to - from);
    assert blk[..] == blk[..from] + blk[from..to] + blk[to..];
  }

  lemma AllTokens()
    ensures Bswap(Bswap(FDT_BEGIN_NODE)) == FDT_BEGIN_NODE && Bswap(Bswap(FDT_END_NODE)) == FDT_END_NODE
    ensures Bswap(Bswap(FDT_PROP)) == FDT_PROP && Bswap(Bswap(FDT_NOP)) == FDT_NOP && Bswap(Bswap(FDT_END)) == FDT_END
  {
    BswapReverses(FDT_BEGIN_NODE);
    BswapReverses(FDT_END_NODE);
    BswapReverses(FDT_PROP);
    BswapReverses(FDT_NOP);
    BswapReverses(FDT_END);
  }

  // The word after a node's items: the end of the node, or of the tree.
  predicate Ends(w: Word) { Bswap(w) != FDT_NOP && Bswap(w) != FDT_PROP && Bswap(w) != FDT_BEGIN_NODE }

  // The block while the loop stands at item k: what the first k have become, then the rest.
  ghost predicate Standing(b: seq<Word>, pre: seq<Word>, left: seq<Item>, rest: seq<Item>, post: seq<Word>) {
    b == pre + Enc(left) + (Enc(rest) + post)
  }

  lemma Cut(a: seq<Word>, x: seq<Word>, z: seq<Word>)
    ensures var b := a + x + z;
            |a| + |x| <= |b| && b[..|a|] == a && b[|a|..|a| + |x|] == x && b[|a| + |x|..] == z
  {
  }

  lemma Assoc(a: seq<Word>, b: seq<Word>, c: seq<Word>)
    ensures a + (b + c) == a + b + c
  {
  }

  lemma EncStep(rest: seq<Item>)
    requires rest != []
    ensures Enc(rest) == EncItem(rest[0]) + Enc(rest[1..])
  {
  }

  lemma StandingCut(b: seq<Word>, pre: seq<Word>, left: seq<Item>, rest: seq<Item>, post: seq<Word>)
    requires Standing(b, pre, left, rest, post) && rest != []
    ensures b == pre + Enc(left) + EncItem(rest[0]) + (Enc(rest[1..]) + post)
  {
    hide Enc, EncItem;
    EncStep(rest);
    Assoc(EncItem(rest[0]), Enc(rest[1..]), post);
    Assoc(pre + Enc(left), EncItem(rest[0]), Enc(rest[1..]) + post);
  }

  lemma NextItem(b: seq<Word>, pre: seq<Word>, left: seq<Item>, rest: seq<Item>, post: seq<Word>)
    requires Standing(b, pre, left, rest, post) && rest != []
    ensures var lex := |pre| + |Enc(left)|;
            && lex + |EncItem(rest[0])| <= |b| && b[lex..lex + |EncItem(rest[0])|] == EncItem(rest[0])
            && b[..lex] == pre + Enc(left) && b[lex + |EncItem(rest[0])|..] == Enc(rest[1..]) + post
  {
    hide Enc, EncItem, Standing;
    StandingCut(b, pre, left, rest, post);
    Cut(pre + Enc(left), EncItem(rest[0]), Enc(rest[1..]) + post);
  }

  lemma NoItem(b: seq<Word>, pre: seq<Word>, left: seq<Item>, post: seq<Word>)
    requires Standing(b, pre, left, [], post) && post != []
    ensures var lex := |pre| + |Enc(left)|; lex < |b| && b[lex] == post[0] && b == pre + Enc(left) + post
  {
    assert Enc([]) + post == post;
  }

  // The item has become `kept`.
  lemma StandingKept(b: seq<Word>, pre: seq<Word>, left: seq<Item>, kept: seq<Item>, rest: seq<Item>, post: seq<Word>)
    requires b == pre + Enc(left) + Enc(kept) + (Enc(rest) + post)
    ensures Standing(b, pre, left + kept, rest, post) && |Enc(left + kept)| == |Enc(left)| + |Enc(kept)|
  {
    hide Enc;
    EncAppend(left, kept);
    Assoc(pre, Enc(left), Enc(kept));
  }

  // The item stays as it is.
  lemma StandingNext(b: seq<Word>, pre: seq<Word>, left: seq<Item>, rest: seq<Item>, post: seq<Word>)
    requires Standing(b, pre, left, rest, post) && rest != []
    ensures Standing(b, pre, left + [rest[0]], rest[1..], post)
    ensures |Enc(left + [rest[0]])| == |Enc(left)| + |EncItem(rest[0])|
  {
    hide Enc, EncItem, Standing;
    StandingCut(b, pre, left, rest, post);
    EncOne(rest[0]);
    StandingKept(b, pre, left, [rest[0]], rest[1..], post);
  }

  // Inside a node: the words before its body and after it.
  function BodyPre(pre: seq<Word>, left: seq<Item>, name: seq<Word>): seq<Word> {
    pre + Enc(left) + [Bswap(FDT_BEGIN_NODE)] + name
  }

  function BodyPost(rest: seq<Item>, post: seq<Word>): seq<Word> { [Bswap(FDT_END_NODE)] + (Enc(rest) + post) }

  lemma IntoBody(b: seq<Word>, pre: seq<Word>, left: seq<Item>, rest: seq<Item>, post: seq<Word>)
    requires Standing(b, pre, left, rest, post) && rest != [] && rest[0].Child?
    ensures b == BodyPre(pre, left, rest[0].name) + Enc(rest[0].body) + BodyPost(rest[1..], post)
  {
    hide Enc, Standing;
    StandingCut(b, pre, left, rest, post);
    var c := rest[0];
    Regroup(pre + Enc(left), [Bswap(FDT_BEGIN_NODE)], c.name, Enc(c.body), [Bswap(FDT_END_NODE)],
            Enc(rest[1..]) + post);
  }

  lemma NameWords(b: seq<Word>, pre: seq<Word>, left: seq<Item>, c: Item, z: seq<Word>)
    requires c.Child? && b == BodyPre(pre, left, c.name) + z
    ensures var lex := |pre| + |Enc(left)|;
            && lex + 1 + |c.name| <= |b| && b[lex] == Bswap(FDT_BEGIN_NODE) && b[lex + 1..lex + 1 + |c.name|] == c.name
            && |BodyPre(pre, left, c.name)| == lex + 1 + |c.name|
  {
    hide Enc, Bswap;
    Cut(pre + Enc(left) + [Bswap(FDT_BEGIN_NODE)], c.name, z);
    Cut(pre + Enc(left), [Bswap(FDT_BEGIN_NODE)], c.name + z);
    Assoc(pre + Enc(left) + [Bswap(FDT_BEGIN_NODE)], c.name, z);
    assert b[|pre + Enc(left)|..|pre + Enc(left)| + 1] == [Bswap(FDT_BEGIN_NODE)];
  }

  lemma Regroup(a: seq<Word>, t: seq<Word>, n: seq<Word>, body: seq<Word>, e: seq<Word>, z: seq<Word>)
    ensures a + (t + n + body + e) + z == a + t + n + body + (e + z)
  {
  }

  lemma OutOfBody(b: seq<Word>, pre: seq<Word>, left: seq<Item>, c: Item, body: seq<Item>, rest: seq<Item>,
                  post: seq<Word>)
    requires c.Child? && b == BodyPre(pre, left, c.name) + Enc(body) + BodyPost(rest, post)
    ensures b == pre + Enc(left) + Enc([Child(c.name, body)]) + (Enc(rest) + post)
  {
    hide Enc;
    EncOne(Child(c.name, body));
    Regroup(pre + Enc(left), [Bswap(FDT_BEGIN_NODE)], c.name, Enc(body), [Bswap(FDT_END_NODE)], Enc(rest) + post);
  }

  // What the word at the scanner's position says about the next item.
  lemma NextToken(b: seq<Word>, pre: seq<Word>, left: seq<Item>, rest: seq<Item>, post: seq<Word>)
    requires Standing(b, pre, left, rest, post) && post != [] && Ends(post[0])
    ensures var lex := |pre| + |Enc(left)|;
            && lex < |b|
            && (Bswap(b[lex]) == FDT_NOP <==> rest != [] && rest[0].Nop?)
            && (Bswap(b[lex]) == FDT_PROP <==> rest != [] && rest[0].Prop?)
            && (Bswap(b[lex]) == FDT_BEGIN_NODE <==> rest != [] && rest[0].Child?)
            && (rest == [] ==> b[lex] == post[0])
  {
    hide Bswap, Enc, Standing;
    AllTokens();
    if rest == [] {
      NoItem(b, pre, left, post);
    } else {
      NextItem(b, pre, left, rest, post);
      FirstWord(rest[0]);
      var lex, x := |pre| + |Enc(left)|, EncItem(rest[0]);
      assert b[lex] == b[lex..lex + |x|][0];
    }
  }

  lemma FirstWord(item: Item)
    ensures EncItem(item)[0] ==
            Bswap(if item.Nop? then FDT_NOP else if item.Prop? then FDT_PROP else FDT_BEGIN_NODE)
  {
    hide Bswap;
  }

  // The fields of a property.
  lemma PropWords(b: seq<Word>, pre: seq<Word>, left: seq<Item>, rest: seq<Item>, post: seq<Word>)
    requires Standing(b, pre, left, rest, post) && rest != [] && rest[0].Prop? && ItemOk(rest[0])
    ensures var lex, p := |pre| + |Enc(left)|, rest[0];
            && |EncItem(p)| == 3 + ValueWords(p.len) && lex + |EncItem(p)| <= |b|
            && Bswap(b[lex + 1]) == p.len && Bswap(b[lex + 2]) == p.nameOff && b[lex + 3..lex + |EncItem(p)|] == p.value
  {
    hide Bswap, Enc, Standing;
    NextItem(b, pre, left, rest, post);
    var lex, p := |pre| + |Enc(left)|, rest[0];
    var x := EncItem(p);
    BswapReverses(p.len);
    BswapReverses(p.nameOff);
    var y := b[lex..lex + |x|];
    assert b[lex + 1] == y[1] && b[lex + 2] == y[2] && b[lex + 3..lex + |x|] == y[3..];
    assert x[3..] == p.value;
  }

  // The case of a node: its scan, the close callback, and the overwriting.
  method ScanChild(blk: array<Word>, lex: nat, node: Option<seq<Word>>, reject: Reject, ghost s: Scan,
                   trace: seq<Event>, last: bool, ghost pre: seq<Word>, ghost c: Item, ghost rest: seq<Item>,
                   ghost post: seq<Word>)
    returns (next: nat, told: seq<Event>)
    requires c.Child? && ItemOk(c) && Standing(blk[..], pre, s.items, [c] + rest, post) && lex == |pre| + |Enc(s.items)|
    requires trace == s.trace && last == s.last
    modifies blk
    ensures var s' := Step(node, s, c, reject);
            && told == s'.trace && Standing(blk[..], pre, s'.items, rest, post) && next == |pre| + |Enc(s'.items)|
    decreases c, 0
  {
    hide Enc, EncItem, Standing, Steps, Step, Bswap, NameOk, Nops, BodyPre, BodyPost, DoneEvent, ItemsOk, Ends, Finish;
    ghost var b := blk[..];
    var name := ChildName(blk, lex, pre, s.items, c, rest, post);
    EndsNode(rest, post);
    ghost var inner;
    told := trace + DoneEvent(node, last) + [OpenNode(name)];
    next, told, inner := ScanHelper(blk, lex + 1 + |name|, Some(name), reject, told, BodyPre(pre, s.items, c.name),
                                    c.body, BodyPost(rest, post));
    told := told + [CloseNode(name)];
    StepChild(node, s, c, reject);
    ChildLength(c);
    ClosedNode(blk, lex, next, reject(told), b, pre, s.items, c, inner.items, rest, post);
  }

  // The name of a node, by strlen; and where its body lies.
  method ChildName(blk: array<Word>, lex: nat, ghost pre: seq<Word>, ghost left: seq<Item>, ghost c: Item,
                   ghost rest: seq<Item>, ghost post: seq<Word>)
    returns (name: seq<Word>)
    requires c.Child? && ItemOk(c) && Standing(blk[..], pre, left, [c] + rest, post) && lex == |pre| + |Enc(left)|
    ensures name == c.name && ItemsOk(c.body) && NameOk(name)
    ensures blk[..] == BodyPre(pre, left, c.name) + Enc(c.body) + BodyPost(rest, post)
    ensures |BodyPre(pre, left, c.name)| == lex + 1 + |name|
    ensures lex + |EncItem(c)| <= blk.Length && blk[..][..lex] == pre + Enc(left)
    ensures blk[..][lex + |EncItem(c)|..] == Enc(rest) + post
  {
    hide Enc, EncItem, Standing, Bswap, NameOk, BodyPre, BodyPost, ItemOk, ItemsOk;
    ChildParts(c);
    ChildPlaces(blk[..], pre, left, c, rest, post);
    name := ReadName(blk, lex + 1, c.name);
  }

  lemma ChildPlaces(b: seq<Word>, pre: seq<Word>, left: seq<Item>, c: Item, rest: seq<Item>, post: seq<Word>)
    requires c.Child? && Standing(b, pre, left, [c] + rest, post)
    ensures b == BodyPre(pre, left, c.name) + Enc(c.body) + BodyPost(rest, post)
    ensures var lex := |pre| + |Enc(left)|;
            && lex + 1 + |c.name| <= |b| && b[lex + 1..lex + 1 + |c.name|] == c.name
            && |BodyPre(pre, left, c.name)| == lex + 1 + |c.name|
            && lex + |EncItem(c)| <= |b| && b[..lex] == pre + Enc(left) && b[lex + |EncItem(c)|..] == Enc(rest) + post
  {
    hide Enc, EncItem, Standing, Bswap, BodyPre, BodyPost;
    assert ([c] + rest)[0] == c && ([c] + rest)[1..] == rest;
    NextItem(b, pre, left, [c] + rest, post);
    IntoBody(b, pre, left, [c] + rest, post);
    Assoc(BodyPre(pre, left, c.name), Enc(c.body), BodyPost(rest, post));
    NameWords(b, pre, left, c, Enc(c.body) + BodyPost(rest, post));
  }

  lemma ChildParts(c: Item)
    requires c.Child? && ItemOk(c)
    ensures ItemsOk(c.body) && NameOk(c.name)
  {
  }

  method ReadName(blk: array<Word>, at: nat, ghost name: seq<Word>) returns (r: seq<Word>)
    requires NameOk(name) && at + |name| <= blk.Length && blk[at..at + |name|] == name
    ensures r == name
  {
    hide NameOk;
    var n := StrLen(blk, at, name);
    r := blk[at..at + 1 + n / 4];
  }

  // The end of the case of a node: overwrite it or leave it.
  method ClosedNode(blk: array<Word>, lex: nat, next: nat, gone: bool, ghost b: seq<Word>, ghost pre: seq<Word>,
                    ghost left: seq<Item>, ghost c: Item, ghost body: seq<Item>, ghost rest: seq<Item>,
                    ghost post: seq<Word>)
    requires c.Child? && b == BodyPre(pre, left, c.name) + Enc(c.body) + BodyPost(rest, post)
    requires |Enc(body)| == |Enc(c.body)|
    requires blk[..] == BodyPre(pre, left, c.name) + Enc(body) + BodyPost(rest, post)
    requires lex == |pre| + |Enc(left)| && next == lex + |EncItem(c)| <= |b|
    requires b[..lex] == pre + Enc(left) && b[next..] == Enc(rest) + post
    modifies blk
    ensures var kept := if gone then Nops(|EncItem(c)|) else [Child(c.name, body)];
            Standing(blk[..], pre, left + kept, rest, post) && next == |pre| + |Enc(left + kept)|
  {
    hide Enc, EncItem, Standing, Bswap, Nops, NopWords, BodyPre, BodyPost;
    if gone {
      AroundNode(b, blk[..], pre, left, c, body, rest, post);
      Overwrite(blk, lex, next);
      EncNops(|EncItem(c)|);
      StandingKept(blk[..], pre, left, Nops(|EncItem(c)|), rest, post);
    } else {
      NodeStays(blk[..], pre, left, c, body, rest, post);
    }
  }

  // The words before the node and those after it.
  lemma AroundNode(b: seq<Word>, b': seq<Word>, pre: seq<Word>, left: seq<Item>, c: Item, body: seq<Item>,
                   rest: seq<Item>, post: seq<Word>)
    requires c.Child? && b == BodyPre(pre, left, c.name) + Enc(c.body) + BodyPost(rest, post)
    requires |Enc(body)| == |Enc(c.body)|
    requires b' == BodyPre(pre, left, c.name) + Enc(body) + BodyPost(rest, post)
    ensures var lex, next := |pre| + |Enc(left)|, |pre| + |Enc(left)| + |EncItem(c)|;
            next <= |b| == |b'| && b'[..lex] == b[..lex] && b'[next..] == b[next..]
  {
    hide Enc, EncItem, BodyPre;
    ChildLength(c);
    Assoc(BodyPre(pre, left, c.name), Enc(c.body), BodyPost(rest, post));
    NameWords(b, pre, left, c, Enc(c.body) + BodyPost(rest, post));
    SamePrefix(b, b', BodyPre(pre, left, c.name), Enc(c.body), Enc(body), BodyPost(rest, post), |pre| + |Enc(left)|,
               |EncItem(c)|);
  }

  lemma NodeStays(b: seq<Word>, pre: seq<Word>, left: seq<Item>, c: Item, body: seq<Item>, rest: seq<Item>,
                  post: seq<Word>)
    requires c.Child? && |Enc(body)| == |Enc(c.body)|
    requires b == BodyPre(pre, left, c.name) + Enc(body) + BodyPost(rest, post)
    ensures Standing(b, pre, left + [Child(c.name, body)], rest, post)
    ensures |Enc(left + [Child(c.name, body)])| == |Enc(left)| + |EncItem(c)|
  {
    hide Enc, EncItem, Standing, BodyPre, BodyPost;
    OutOfBody(b, pre, left, c, body, rest, post);
    KeptLength(c, body);
    EncOne(Child(c.name, body));
    StandingKept(b, pre, left, [Child(c.name, body)], rest, post);
  }

  lemma ChildLength(c: Item)
    requires c.Child?
    ensures |EncItem(c)| == 2 + |c.name| + |Enc(c.body)|
  {
    hide Enc;
  }

  lemma EndsNode(rest: seq<Item>, post: seq<Word>)
    ensures BodyPost(rest, post) != [] && Ends(BodyPost(rest, post)[0])
    ensures Bswap(BodyPost(rest, post)[0]) == FDT_END_NODE
  {
    hide Enc;
    AllTokens();
  }

  // Words before a node and after it, when only its body has changed.
  lemma SamePrefix(b: seq<Word>, b': seq<Word>, pre: seq<Word>, body: seq<Word>, body': seq<Word>, post: seq<Word>,
                   lex: nat, n: nat)
    requires b == pre + body + post && b' == pre + body' + post && |body| == |body'| && post != []
    requires lex <= |pre| && lex + n == |pre| + |body| + 1
    ensures lex + n <= |b| && b'[..lex] == b[..lex] && b'[lex + n..] == b[lex + n..]
  {
    assert b'[..lex] == pre[..lex] && b[..lex] == pre[..lex];
    assert b'[lex + n..] == post[1..] && b[lex + n..] == post[1..];
  }

  // A property: its length, its name's offset and its value.
  method ReadProp(blk: array<Word>, lex: nat, ghost pre: seq<Word>, ghost left: seq<Item>, ghost rest: seq<Item>,
                  ghost post: seq<Word>)
    returns (event: Event, next: nat)
    requires Standing(blk[..], pre, left, rest, post) && rest != [] && rest[0].Prop? && ItemOk(rest[0])
    requires lex == |pre| + |Enc(left)|
    ensures event == SeeProp(rest[0].len, rest[0].nameOff, rest[0].value) && next == lex + |EncItem(rest[0])|
  {
    hide Enc, EncItem, Standing, Bswap, ItemOk;
    PropWords(blk[..], pre, left, rest, post);
    var len, nameOff := Bswap(blk[lex + 1]), Bswap(blk[lex + 2]);
    next := lex + 3 + ValueWords(len);
    assert blk[lex + 3..next] == blk[..][lex + 3..next];
    event := SeeProp(len, nameOff, blk[lex + 3..next]);
  }

  /** fdt_scan_helper on the encoding of a list of items that ends with an end token. */
  method ScanHelper(blk: array<Word>, at: nat, node: Option<seq<Word>>, reject: Reject, trace: seq<Event>,
                    ghost pre: seq<Word>, ghost items: seq<Item>, ghost post: seq<Word>)
    returns (next: nat, told: seq<Event>, ghost s: Scan)
    requires ItemsOk(items) && blk[..] == pre + Enc(items) + post && at == |pre| && post != [] && Ends(post[0])
    modifies blk
    ensures s == Finish(node, Steps(node, items, |items|, Scan([], trace, false), reject)) && told == s.trace
    ensures blk[..] == pre + Enc(s.items) + post && |Enc(s.items)| == |Enc(items)|
    ensures next == |pre| + |Enc(items)| + (if Bswap(post[0]) == FDT_END_NODE then 1 else 0)
    decreases items, 1
  {
    hide Enc, EncItem, Standing, Step, Bswap, NameOk, LeftOk, ItemOk, ItemsOk;
    var lex, last := at, false;
    told := trace;
    s := Scan([], trace, false);
    ghost var k := 0;
    StandingStart(blk[..], pre, items, post);
    while true
      invariant 0 <= k <= |items| && s == Steps(node, items, k, Scan([], trace, false), reject)
      invariant told == s.trace && last == s.last && lex == |pre| + |Enc(s.items)|
      invariant Standing(blk[..], pre, s.items, items[k..], post)
      decreases |items| - k
    {
      ghost var rest := items[k..];
      NextToken(blk[..], pre, s.items, rest, post);
      var token := Bswap(blk[lex]);
      if token == FDT_NOP {
        StandingNext(blk[..], pre, s.items, rest, post);
        Plain(node, items, k, trace, s, reject);
        lex := lex + 1;
      } else if token == FDT_PROP {
        Plain(node, items, k, trace, s, reject);
        assert !last;
        OneItemOk(items, k);
        StandingNext(blk[..], pre, s.items, rest, post);
        var event;
        event, lex := ReadProp(blk, lex, pre, s.items, rest, post);
        told := told + [event];
      } else if token == FDT_BEGIN_NODE {
        OneItemOk(items, k);
        assert rest == [items[k]] + items[k + 1..];
        ChildSets(node, s, items[k], reject);
        lex, told := ScanChild(blk, lex, node, reject, s, told, last, pre, items[k], items[k + 1..], post);
        last := true;
      } else {
        assert rest == [];
        NoItem(blk[..], pre, s.items, post);
        StepsLeft(node, items, |items|, trace, reject);
        WholeLength(items, s);
        told := told + DoneEvent(node, last);
        s := Finish(node, s);
        return if token == FDT_END_NODE then lex + 1 else lex, told, s;
      }
      s := Step(node, s, items[k], reject);
      k := k + 1;
    }
  }

  lemma StandingStart(b: seq<Word>, pre: seq<Word>, items: seq<Item>, post: seq<Word>)
    requires b == pre + Enc(items) + post
    ensures Standing(b, pre, [], items, post) && Enc([]) == [] && items[0..] == items
  {
    Assoc(pre, Enc(items), post);
    assert pre + [] == pre;
  }

  lemma OneItemOk(items: seq<Item>, k: nat)
    requires ItemsOk(items) && k < |items|
    ensures ItemOk(items[k])
  {
  }

  lemma ChildSets(node: Option<seq<Word>>, s: Scan, c: Item, reject: Reject)
    requires c.Child?
    ensures Step(node, s, c, reject).last
  {
  }

  lemma Plain(node: Option<seq<Word>>, items: seq<Item>, k: nat, trace: seq<Event>, s: Scan, reject: Reject)
    requires ItemsOk(items) && k < |items| && !items[k].Child?
    requires s == Steps(node, items, k, Scan([], trace, false), reject)
    ensures items[k].Prop? ==> !s.last
    ensures Step(node, s, items[k], reject) ==
            Scan(s.items + [items[k]],
                 s.trace + (if items[k].Prop? then [SeeProp(items[k].len, items[k].nameOff, items[k].value)] else []),
                 s.last)
    ensures items[k].Nop? ==> |EncItem(items[k])| == 1
  {
    hide Steps;
    StepsReport(node, items, k, trace, reject);
    if items[k].Prop? { NoKidsYet(items, k, k); }
  }

  lemma WholeLength(items: seq<Item>, s: Scan)
    requires LeftOk(items, |items|, s)
    ensures |Enc(s.items)| == |Enc(items)| && ItemsOk(s.items)
  {
    assert items[..|items|] == items;
  }

  // ---------------------------------------------------------------------
  // The whole scan
  // ---------------------------------------------------------------------

  // The events of the items at the top, where there is no node.
  function AllEvents(props: seq<Event>, kids: seq<Tree>): seq<Event> { props + ForestEvents(kids, |kids|) }

  lemma TopReport(items: seq<Item>, reject: Reject)
    requires ItemsOk(items)
    ensures var s := Finish(None, Steps(None, items, |items|, Scan([], [], false), reject));
            var props, kids := Props(items, |items|), Kids(items, |items|);
            && s.trace == AllEvents(props, kids) && ItemsOk(s.items)
            && Props(s.items, |s.items|) == props && Kids(s.items, |s.items|) == PruneKids(kids, |kids|, reject, props)
  {
    hide Steps, Props, Kids, ForestEvents, PruneKids, LeftOk;
    StepsReport(None, items, |items|, [], reject);
    StepsLeft(None, items, |items|, [], reject);
    var s := Steps(None, items, |items|, Scan([], [], false), reject);
    WholeLength(items, s);
    NoForest();
    assert [] + Props(items, |items|) + [] == Props(items, |items|);
  }

  /** Two scans of the same block: the first reports the tree as it is, the second the
      tree without exactly the nodes that the first was told to delete. */
  method ScanTwice(blk: array<Word>, at: nat, reject: Reject, again: Reject, ghost pre: seq<Word>,
                   ghost items: seq<Item>, ghost post: seq<Word>)
    returns (first: seq<Event>, second: seq<Event>)
    requires ItemsOk(items) && blk[..] == pre + Enc(items) + post && at == |pre| && post != [] && Ends(post[0])
    modifies blk
    ensures var props, kids := Props(items, |items|), Kids(items, |items|);
            && first == AllEvents(props, kids)
            && second == AllEvents(props, PruneKids(kids, |kids|, reject, props))
  {
    hide Enc, Steps, Props, Kids, ForestEvents, PruneKids, ItemsOk, Bswap;
    ghost var s, s2;
    var next;
    TopReport(items, reject);
    next, first, s := ScanHelper(blk, at, None, reject, [], pre, items, post);
    TopReport(s.items, again);
    next, second, s2 := ScanHelper(blk, at, None, again, [], pre, s.items, post);
  }
}
