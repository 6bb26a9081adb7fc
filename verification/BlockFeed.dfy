/**
 * The block feed: a scanner polls one node, walks back from the reported tip to
 * a block it has already seen, and hands the new blocks to the feed oldest first.
 *
 * `Walk` and `Polled` describe one poll of an arbitrary, possibly lying or
 * failing node; the lemmas say what a whole run of polls yields when the node
 * answers from one acyclic block tree.
 */
module BlockFeed {
  import opened Integers
  import opened Mantle

  /** What one poll gets to see of the node. */
  datatype Snapshot =
    | Unreachable
    | Info(tip: HeaderId, height: nat, store: map<HeaderId, Block>)

  /** The scanner's `seen` set together with everything its feed has emitted. */
  datatype State = State(seen: set<HeaderId>, log: seq<BlockRecord>, total: nat)

  const INIT := State({}, [], 0)

  /** Result of walking back: blocks to emit, oldest first, and a header to mark as seen without emitting it. */
  datatype Walked = Failed | Walked(batch: seq<BlockRecord>, marked: set<HeaderId>)

  // ---------------------------------------------------------------- one poll

  function Walk(seen: set<HeaderId>, store: map<HeaderId, Block>, cursor: HeaderId, remaining: nat): (w: Walked)
    ensures w.Walked? ==> |w.batch| <= remaining
    decreases remaining
  {
    if cursor in seen then Walked([], {})
    else if remaining == 0 then Walked([], {cursor})
    else if cursor !in store then Failed
    else
      var top := BlockRecord(cursor, store[cursor]);
      if top.block.parent in seen || top.block.parent == cursor then Walked([top], {})
      else match Walk(seen, store, top.block.parent, remaining - 1)
        case Failed => Failed
        case Walked(batch, marked) => Walked(batch + [top], marked)
  }

  function Headers(log: seq<BlockRecord>): (r: set<HeaderId>) {
    set i | 0 <= i < |log| :: log[i].header
  }

  function TxCount(log: seq<BlockRecord>): (r: nat) {
    if log == [] then 0 else TxCount(log[..|log| - 1]) + |log[|log| - 1].block.transactions|
  }

  function WalkOf(s: State, snap: Snapshot): (w: Walked) {
    match snap
    case Unreachable => Failed
    case Info(tip, height, store) => Walk(s.seen, store, tip, height)
  }

  /** The state after one `catch_up`. */
  function Polled(s: State, snap: Snapshot): (r: State) {
    match WalkOf(s, snap)
    case Failed => s
    case Walked(batch, marked) =>
      State(s.seen + marked + Headers(batch), s.log + batch, s.total + TxCount(batch))
  }

  function Run(snaps: seq<Snapshot>): (s: State) {
    if snaps == [] then INIT else Polled(Run(snaps[..|snaps| - 1]), snaps[|snaps| - 1])
  }

  /** A stored block that is its own parent, as genesis is, ends the walk and is emitted. */
  lemma SelfParentStops(seen: set<HeaderId>, store: map<HeaderId, Block>, cursor: HeaderId, remaining: nat)
    requires cursor !in seen && remaining > 0 && cursor in store && store[cursor].parent == cursor
    ensures Walk(seen, store, cursor, remaining) == Walked([BlockRecord(cursor, store[cursor])], {})
  {
  }

  // ------------------------------------------------- the scanner as it is coded

  function Popped(stack: seq<BlockRecord>): (r: seq<BlockRecord>) {
    if stack == [] then [] else [stack[|stack| - 1]] + Popped(stack[..|stack| - 1])
  }

  lemma PoppedPush(stack: seq<BlockRecord>, x: BlockRecord)
    ensures Popped(stack + [x]) == [x] + Popped(stack)
  {
    assert (stack + [x])[..|stack|] == stack;
  }

  lemma {:induction false} PoppedLength(stack: seq<BlockRecord>)
    ensures |Popped(stack)| == |stack|
  {
    if stack != [] { PoppedLength(stack[..|stack| - 1]); }
  }

  /** The whole walk is what remains to be walked, followed by the blocks already on the stack. */
  predicate SameWalk(whole: Walked, rest: Walked, stack: seq<BlockRecord>) {
    match rest
    case Failed => whole == Failed
    case Walked(batch, marked) => whole == Walked(batch + Popped(stack), marked)
  }

  lemma PushKeepsWalk(whole: Walked, seen: set<HeaderId>, store: map<HeaderId, Block>,
                      cursor: HeaderId, remaining: nat, stack: seq<BlockRecord>)
    requires cursor !in seen && remaining > 0 && cursor in store
    requires SameWalk(whole, Walk(seen, store, cursor, remaining), stack)
    ensures var top := BlockRecord(cursor, store[cursor]);
      if top.block.parent in seen || top.block.parent == cursor
      then whole == Walked(Popped(stack + [top]), {})
      else SameWalk(whole, Walk(seen, store, top.block.parent, remaining - 1), stack + [top])
  {
    var top := BlockRecord(cursor, store[cursor]);
    PoppedPush(stack, top);
    var rest := Walk(seen, store, top.block.parent, remaining - 1);
    if rest.Walked? {
      assert (rest.batch + [top]) + Popped(stack) == rest.batch + Popped(stack + [top]);
    }
  }

  lemma HeadersStep(log: seq<BlockRecord>, x: BlockRecord)
    ensures Headers(log + [x]) == Headers(log) + {x.header}
  {
    var all := log + [x];
    forall h | h in Headers(log) + {x.header} ensures h in Headers(all) {
      if h in Headers(log) {
        var i :| 0 <= i < |log| && log[i].header == h;
        assert all[i].header == h;
      } else {
        assert all[|log|].header == h;
      }
    }
  }

  lemma {:induction false} HeadersAppend(a: seq<BlockRecord>, b: seq<BlockRecord>)
    ensures Headers(a + b) == Headers(a) + Headers(b)
    decreases |b|
  {
    if b == [] {
      assert a + b == a;
    } else {
      var k := |b| - 1;
      assert a + b == (a + b[..k]) + [b[k]];
      assert b == b[..k] + [b[k]];
      HeadersAppend(a, b[..k]);
      HeadersStep(a + b[..k], b[k]);
      HeadersStep(b[..k], b[k]);
    }
  }

  lemma {:induction false} TxCountAppend(a: seq<BlockRecord>, b: seq<BlockRecord>)
    ensures TxCount(a + b) == TxCount(a) + TxCount(b)
    decreases |b|
  {
    if b == [] {
      assert a + b == a;
    } else {
      var k := |b| - 1;
      assert (a + b)[..|a + b| - 1] == a + b[..k];
      TxCountAppend(a, b[..k]);
    }
  }

  class Feed {
    var sent: seq<BlockRecord>
    /** Everything ever added to the 64-bit counter, which holds it modulo 2^64. */
    var totalTransactions: nat

    constructor ()
      ensures sent == [] && totalTransactions == 0
    {
      sent := [];
      totalTransactions := 0;
    }

    /** Counts the block's transactions, then broadcasts the record. */
    method Ingest(header: HeaderId, block: Block)
      modifies this
      ensures sent == old(sent) + [BlockRecord(header, block)]
      ensures totalTransactions == old(totalTransactions) + |block.transactions|
    {
      totalTransactions := totalTransactions + |block.transactions|;
      sent := sent + [BlockRecord(header, block)];
    }

    method TotalTransactions() returns (n: nat)
      ensures n < U64_LIMIT && (totalTransactions - n) % U64_LIMIT == 0
    {
      n := totalTransactions % U64_LIMIT;
    }
  }

  class Scanner {
    const feed: Feed
    var seen: set<HeaderId>

    constructor ()
      ensures fresh(feed) && View() == INIT
    {
      feed := new Feed();
      seen := {};
    }

    ghost function View(): (s: State)
      reads this, feed
    {
      State(seen, feed.sent, feed.totalTransactions)
    }

    /**
     * One `catch_up` against whatever the node answers. `fetched` counts the
     * block requests made, successful or not.
     */
    method CatchUp(snap: Snapshot) returns (ok: bool, fetched: nat)
      modifies this, feed
      ensures ok == WalkOf(old(View()), snap).Walked?
      ensures View() == Polled(old(View()), snap)
      ensures snap.Info? ==> fetched <= snap.height
      ensures match WalkOf(old(View()), snap)
        case Walked(batch, _) => fetched == |batch|
        case Failed => snap.Info? ==> fetched > 0
      ensures snap.Unreachable? ==> fetched == 0
    {
      if snap.Unreachable? {
        return false, 0;
      }
      var stack;
      ok, stack, fetched := WalkBack(snap.tip, snap.height, snap.store);
      if ok {
        Drain(stack);
      }
    }

    /** The polling loop, observed after any number of rounds; a failed poll is skipped. */
    method Poll(snaps: seq<Snapshot>)
      requires View() == INIT
      modifies this, feed
      ensures View() == Run(snaps)
    {
      for k := 0 to |snaps|
        invariant View() == Run(snaps[..k])
      {
        assert snaps[..k + 1][..k] == snaps[..k];
        var ok, fetched := CatchUp(snaps[k]);
      }
      assert snaps[..|snaps|] == snaps;
    }

    /** The first loop: from the tip back to a seen block, without emitting anything. */
    method WalkBack(tip: HeaderId, height: nat, store: map<HeaderId, Block>)
      returns (ok: bool, stack: seq<BlockRecord>, fetched: nat)
      modifies `seen
      ensures var w := Walk(old(seen), store, tip, height);
        && ok == w.Walked?
        && (ok ==> w.batch == Popped(stack) && seen == old(seen) + w.marked)
        && (!ok ==> seen == old(seen) && fetched > 0)
        && (ok ==> fetched == |w.batch|)
      ensures fetched <= height
    {
      fetched, stack := 0, [];
      var cursor, remaining := tip, height;
      while true
        invariant seen == old(seen)
        invariant fetched + remaining == height && fetched == |stack|
        invariant SameWalk(Walk(seen, store, tip, height), Walk(seen, store, cursor, remaining), stack)
        decreases remaining
      {
        PoppedLength(stack);
        if cursor in seen {
          return true, stack, fetched;
        }
        if remaining == 0 {
          seen := seen + {cursor};
          return true, stack, fetched;
        }
        fetched := fetched + 1;
        if cursor !in store {
          return false, stack, fetched;
        }
        var block := store[cursor];
        PushKeepsWalk(Walk(seen, store, tip, height), seen, store, cursor, remaining, stack);
        stack := stack + [BlockRecord(cursor, block)];
        PoppedLength(stack);
        if block.parent in seen || block.parent == cursor {
          return true, stack, fetched;
        }
        cursor := block.parent;
        remaining := remaining - 1;
      }
    }

    /** Pops the stack, ingesting each block and marking its header. */
    method Drain(stack0: seq<BlockRecord>)
      modifies this, feed
      ensures feed.sent == old(feed.sent) + Popped(stack0)
      ensures seen == old(seen) + Headers(Popped(stack0))
      ensures feed.totalTransactions == old(feed.totalTransactions) + TxCount(Popped(stack0))
    {
      var stack := stack0;
      ghost var done: seq<BlockRecord> := [];
      while stack != []
        invariant done + Popped(stack) == Popped(stack0)
        invariant feed.sent == old(feed.sent) + done
        invariant seen == old(seen) + Headers(done)
        invariant feed.totalTransactions == old(feed.totalTransactions) + TxCount(done)
        decreases |stack|
      {
        var top := stack[|stack| - 1];
        stack := stack[..|stack| - 1];
        feed.Ingest(top.header, top.block);
        seen := seen + {top.header};
        HeadersStep(done, top);
        assert (done + [top])[..|done|] == done;
        done := done + [top];
      }
      assert done == Popped(stack0);
    }
  }

  // --------------------------------------------------------- the block tree

  /** Every non-genesis block ever produced, on any fork, with its distance from genesis. */
  datatype Tree = Tree(genesis: HeaderId, blocks: map<HeaderId, Block>, depth: map<HeaderId, nat>)

  ghost function Parent(t: Tree, h: HeaderId): (p: HeaderId)
    requires h in t.blocks
  {
    t.blocks[h].parent
  }

  ghost predicate Acyclic(t: Tree) {
    && t.genesis !in t.blocks
    && t.depth.Keys == t.blocks.Keys + {t.genesis}
    && t.depth[t.genesis] == 0
    && forall h {:trigger Parent(t, h)} :: h in t.blocks ==>
        Parent(t, h) in t.depth && t.depth[h] == t.depth[Parent(t, h)] + 1
  }

  /** The chain leading to `h`, genesis excluded, oldest block first. */
  ghost function PathTo(t: Tree, h: HeaderId): (p: seq<BlockRecord>)
    requires Acyclic(t) && h in t.depth
    ensures |p| == t.depth[h]
    decreases t.depth[h]
  {
    if h == t.genesis then [] else PathTo(t, Parent(t, h)) + [BlockRecord(h, t.blocks[h])]
  }

  /** The part of `PathTo` above the youngest seen ancestor. */
  ghost function Unseen(t: Tree, seen: set<HeaderId>, h: HeaderId): (p: seq<BlockRecord>)
    requires Acyclic(t) && h in t.depth
    decreases t.depth[h]
  {
    if h == t.genesis || h in seen then []
    else Unseen(t, seen, Parent(t, h)) + [BlockRecord(h, t.blocks[h])]
  }

  ghost predicate AncestorClosed(t: Tree, seen: set<HeaderId>)
    requires Acyclic(t)
  {
    && seen <= t.depth.Keys
    && (seen != {} ==> t.genesis in seen)
    && forall h {:trigger Parent(t, h)} :: h in seen && h in t.blocks ==> Parent(t, h) in seen
  }

  /**
   * A new scanner needs the tip's true height. Later on the height only has to
   * reach back to a seen ancestor.
   */
  ghost predicate HeightFits(t: Tree, seen: set<HeaderId>, tip: HeaderId, height: nat)
    requires Acyclic(t) && tip in t.depth
  {
    if seen == {} then height == t.depth[tip] else height >= |Unseen(t, seen, tip)|
  }

  /** The node answers from `t`: it may lack blocks, but the ones it has are true, and so is the height. */
  ghost predicate Honest(t: Tree, seen: set<HeaderId>, snap: Snapshot)
    requires Acyclic(t)
  {
    snap.Info? ==>
      && snap.tip in t.depth
      && HeightFits(t, seen, snap.tip, snap.height)
      && forall h :: h in snap.store && h in t.blocks ==> snap.store[h] == t.blocks[h]
  }

  ghost predicate HonestRun(t: Tree, snaps: seq<Snapshot>)
    requires Acyclic(t)
  {
    snaps != [] ==>
      var k := |snaps| - 1;
      HonestRun(t, snaps[..k]) && Honest(t, Run(snaps[..k]).seen, snaps[k])
  }

  ghost predicate NoDuplicates(log: seq<BlockRecord>) {
    forall i, j :: 0 <= i < j < |log| ==> log[i].header != log[j].header
  }

  /** The parent of block `i` is genesis, or known, or among the blocks before. */
  ghost predicate ParentKnown(t: Tree, known: set<HeaderId>, log: seq<BlockRecord>, i: int)
    requires 0 <= i < |log|
  {
    log[i].block.parent == t.genesis || log[i].block.parent in known + Headers(log[..i])
  }

  ghost predicate ParentsKnown(t: Tree, known: set<HeaderId>, log: seq<BlockRecord>) {
    forall i {:trigger ParentKnown(t, known, log, i)} :: 0 <= i < |log| ==> ParentKnown(t, known, log, i)
  }

  ghost predicate ParentsFirst(t: Tree, log: seq<BlockRecord>) {
    ParentsKnown(t, {}, log)
  }

  ghost predicate FromTree(t: Tree, log: seq<BlockRecord>) {
    forall i :: 0 <= i < |log| ==> log[i].header in t.blocks && log[i].block == t.blocks[log[i].header]
  }

  ghost predicate Inv(t: Tree, s: State)
    requires Acyclic(t)
  {
    && AncestorClosed(t, s.seen)
    && Headers(s.log) == s.seen - {t.genesis}
    && NoDuplicates(s.log)
    && ParentsFirst(t, s.log)
    && FromTree(t, s.log)
    && s.total == TxCount(s.log)
  }

  lemma {:induction false} UnseenMembers(t: Tree, seen: set<HeaderId>, h: HeaderId)
    requires Acyclic(t) && h in t.depth && AncestorClosed(t, seen)
    ensures var p := Unseen(t, seen, h);
      && FromTree(t, p)
      && (forall i :: 0 <= i < |p| ==> p[i].header !in seen && t.depth[p[i].header] <= t.depth[h])
      && (h == t.genesis || h in seen + Headers(p))
    decreases t.depth[h]
  {
    if h != t.genesis && h !in seen {
      UnseenMembers(t, seen, Parent(t, h));
      HeadersStep(Unseen(t, seen, Parent(t, h)), BlockRecord(h, t.blocks[h]));
    }
  }

  lemma {:induction false} UnseenDistinct(t: Tree, seen: set<HeaderId>, h: HeaderId)
    requires Acyclic(t) && h in t.depth && AncestorClosed(t, seen)
    ensures NoDuplicates(Unseen(t, seen, h))
    decreases t.depth[h]
  {
    if h != t.genesis && h !in seen {
      UnseenDistinct(t, seen, Parent(t, h));
      UnseenMembers(t, seen, Parent(t, h));
    }
  }

  lemma {:induction false} UnseenParents(t: Tree, seen: set<HeaderId>, h: HeaderId)
    requires Acyclic(t) && h in t.depth && AncestorClosed(t, seen)
    ensures ParentsKnown(t, seen, Unseen(t, seen, h))
    decreases t.depth[h]
  {
    if h != t.genesis && h !in seen {
      var q := Unseen(t, seen, Parent(t, h));
      var p := Unseen(t, seen, h);
      UnseenParents(t, seen, Parent(t, h));
      UnseenMembers(t, seen, Parent(t, h));
      forall i | 0 <= i < |p| ensures ParentKnown(t, seen, p, i) {
        if i < |q| {
          assert p[..i] == q[..i] && p[i] == q[i];
          assert ParentKnown(t, seen, q, i);
        } else {
          assert p[..i] == q;
        }
      }
    }
  }

  /** The coded walk finds exactly the unseen part of the path, or fails because some of it is not stored. */
  lemma {:induction false} WalkFindsUnseen(t: Tree, seen: set<HeaderId>, store: map<HeaderId, Block>,
                                           h: HeaderId, height: nat)
    requires Acyclic(t) && h in t.depth && AncestorClosed(t, seen) && HeightFits(t, seen, h, height)
    requires forall x :: x in store && x in t.blocks ==> store[x] == t.blocks[x]
    ensures Walk(seen, store, h, height) ==
      if Headers(Unseen(t, seen, h)) <= store.Keys
      then Walked(Unseen(t, seen, h), if seen == {} then {t.genesis} else {})
      else Failed
    decreases t.depth[h]
  {
    if h != t.genesis && h !in seen {
      var parent := Parent(t, h);
      var top := BlockRecord(h, t.blocks[h]);
      HeadersStep(Unseen(t, seen, parent), top);
      if h in store {
        WalkFindsUnseen(t, seen, store, parent, height - 1);
        if parent in seen {
          assert Unseen(t, seen, parent) + [top] == [top];
        }
      }
    }
  }

  // --------------------------------------------------------------- theorems

  ghost predicate Succeeds(s: State, snap: Snapshot) {
    snap.Info? && WalkOf(s, snap).Walked?
  }

  lemma {:induction false} NoDuplicatesAppend(a: seq<BlockRecord>, b: seq<BlockRecord>)
    requires NoDuplicates(a) && NoDuplicates(b) && Headers(a) !! Headers(b)
    ensures NoDuplicates(a + b)
  {
    forall i, j | 0 <= i < j < |a + b| ensures (a + b)[i].header != (a + b)[j].header {
      if i < |a| <= j {
        assert a[i].header in Headers(a) && b[j - |a|].header in Headers(b);
      }
    }
  }

  lemma ParentsFirstAppend(t: Tree, a: seq<BlockRecord>, b: seq<BlockRecord>)
    requires ParentsFirst(t, a) && ParentsKnown(t, Headers(a), b)
    ensures ParentsFirst(t, a + b)
  {
    var log := a + b;
    forall i | 0 <= i < |log| ensures ParentKnown(t, {}, log, i) {
      if i < |a| {
        assert log[..i] == a[..i];
        assert ParentKnown(t, {}, a, i);
      } else {
        assert log[..i] == a + b[..i - |a|];
        assert ParentKnown(t, Headers(a), b, i - |a|);
        HeadersAppend(a, b[..i - |a|]);
      }
    }
  }

  /** A successful poll emits exactly the unseen part of the path to the tip; a failed one changes nothing. */
  lemma PolledIsUnseen(t: Tree, s: State, snap: Snapshot)
    requires Acyclic(t) && AncestorClosed(t, s.seen) && Honest(t, s.seen, snap)
    ensures !Succeeds(s, snap) ==> Polled(s, snap) == s
    ensures Succeeds(s, snap) ==>
      var batch := Unseen(t, s.seen, snap.tip);
      Polled(s, snap) ==
        State(s.seen + {t.genesis} + Headers(batch), s.log + batch, s.total + TxCount(batch))
  {
    if Succeeds(s, snap) {
      WalkFindsUnseen(t, s.seen, snap.store, snap.tip, snap.height);
    }
  }

  lemma UnseenKeepsClosed(t: Tree, seen: set<HeaderId>, h: HeaderId)
    requires Acyclic(t) && h in t.depth && AncestorClosed(t, seen)
    ensures AncestorClosed(t, seen + {t.genesis} + Headers(Unseen(t, seen, h)))
  {
    var batch := Unseen(t, seen, h);
    var r := seen + {t.genesis} + Headers(batch);
    UnseenMembers(t, seen, h);
    UnseenParents(t, seen, h);
    forall x | x in r && x in t.blocks ensures Parent(t, x) in r {
      if x !in seen {
        var i :| 0 <= i < |batch| && batch[i].header == x;
        assert ParentKnown(t, seen, batch, i);
        SubHeaders(batch, i);
      }
    }
  }

  lemma UnseenKeepsLog(t: Tree, s: State, h: HeaderId)
    requires Acyclic(t) && h in t.depth && Inv(t, s)
    ensures var log := s.log + Unseen(t, s.seen, h);
      && NoDuplicates(log) && ParentsFirst(t, log) && FromTree(t, log)
      && Headers(log) == Headers(s.log) + Headers(Unseen(t, s.seen, h))
      && t.genesis !in Headers(log)
  {
    var batch := Unseen(t, s.seen, h);
    UnseenMembers(t, s.seen, h);
    UnseenDistinct(t, s.seen, h);
    UnseenParents(t, s.seen, h);
    HeadersAppend(s.log, batch);
    NoDuplicatesAppend(s.log, batch);
    forall i | 0 <= i < |batch| ensures ParentKnown(t, Headers(s.log), batch, i) {
      assert ParentKnown(t, s.seen, batch, i);
    }
    ParentsFirstAppend(t, s.log, batch);
  }

  lemma CatchUpKeepsInv(t: Tree, s: State, snap: Snapshot)
    requires Acyclic(t) && Inv(t, s) && Honest(t, s.seen, snap)
    ensures Inv(t, Polled(s, snap))
  {
    PolledIsUnseen(t, s, snap);
    if Succeeds(s, snap) {
      var batch := Unseen(t, s.seen, snap.tip);
      var r := State(s.seen + {t.genesis} + Headers(batch), s.log + batch, s.total + TxCount(batch));
      assert AncestorClosed(t, r.seen) by { UnseenKeepsClosed(t, s.seen, snap.tip); }
      UnseenKeepsLog(t, s, snap.tip);
      TxCountAppend(s.log, batch);
    }
  }

  lemma SubHeaders(p: seq<BlockRecord>, i: nat)
    requires i <= |p|
    ensures Headers(p[..i]) <= Headers(p)
  {
    assert p == p[..i] + p[i..];
    HeadersAppend(p[..i], p[i..]);
  }

  /** Every ancestor-or-self of `h` except genesis. */
  ghost function Ancestors(t: Tree, h: HeaderId): (r: set<HeaderId>)
    requires Acyclic(t) && h in t.depth
  {
    Headers(PathTo(t, h))
  }

  /** An ancestor-closed set holding `h` holds all of `h`'s ancestors. */
  lemma {:induction false} ClosedHoldsAncestors(t: Tree, seen: set<HeaderId>, h: HeaderId)
    requires Acyclic(t) && AncestorClosed(t, seen) && h in seen
    ensures Ancestors(t, h) <= seen
    decreases t.depth[h]
  {
    if h != t.genesis {
      ClosedHoldsAncestors(t, seen, Parent(t, h));
      HeadersStep(PathTo(t, Parent(t, h)), BlockRecord(h, t.blocks[h]));
    }
  }

  /** What is unseen of a path, plus what was seen, is no more than the path. */
  lemma {:induction false} UnseenWithinPath(t: Tree, seen: set<HeaderId>, h: HeaderId)
    requires Acyclic(t) && h in t.depth
    ensures Headers(Unseen(t, seen, h)) <= Ancestors(t, h)
    decreases t.depth[h]
  {
    if h != t.genesis {
      var top := BlockRecord(h, t.blocks[h]);
      HeadersStep(PathTo(t, Parent(t, h)), top);
      if h !in seen {
        UnseenWithinPath(t, seen, Parent(t, h));
        HeadersStep(Unseen(t, seen, Parent(t, h)), top);
      }
    }
  }

  /** The blocks some successful poll of the run reported as its tip or an ancestor of it. */
  ghost function Reported(t: Tree, snaps: seq<Snapshot>): (r: set<HeaderId>)
    requires Acyclic(t) && HonestRun(t, snaps)
  {
    if snaps == [] then {}
    else
      var k := |snaps| - 1;
      Reported(t, snaps[..k]) +
      if Succeeds(Run(snaps[..k]), snaps[k]) then Ancestors(t, snaps[k].tip) else {}
  }

  /**
   * Over any run of polls, succeeding or failing, with arbitrary tip switches:
   * nothing is emitted twice, parents precede children, the counter is exact,
   * and the feed holds exactly the blocks that successful polls reported.
   */
  lemma {:induction false} RunSafe(t: Tree, snaps: seq<Snapshot>)
    requires Acyclic(t) && HonestRun(t, snaps)
    ensures var s := Run(snaps);
      && NoDuplicates(s.log)
      && ParentsFirst(t, s.log)
      && AncestorClosed(t, s.seen)
      && s.total == TxCount(s.log)
      && Headers(s.log) == Reported(t, snaps)
    ensures Inv(t, Run(snaps))
  {
    if snaps != [] {
      var k := |snaps| - 1;
      RunSafe(t, snaps[..k]);
      CatchUpKeepsInv(t, Run(snaps[..k]), snaps[k]);
      PollReports(t, Run(snaps[..k]), snaps[k]);
    }
  }

  lemma PollReports(t: Tree, s: State, snap: Snapshot)
    requires Acyclic(t) && Inv(t, s) && Honest(t, s.seen, snap)
    ensures Headers(Polled(s, snap).log)
      == Headers(s.log) + if Succeeds(s, snap) then Ancestors(t, snap.tip) else {}
  {
    PolledIsUnseen(t, s, snap);
    if Succeeds(s, snap) {
      UnseenKeepsLog(t, s, snap.tip);
      UnseenWithinPath(t, s.seen, snap.tip);
      UnseenKeepsClosed(t, s.seen, snap.tip);
      UnseenMembers(t, s.seen, snap.tip);
      ClosedHoldsAncestors(t, s.seen + {t.genesis} + Headers(Unseen(t, s.seen, snap.tip)), snap.tip);
      AncestorsAreBlocks(t, snap.tip);
    }
  }

  lemma {:induction false} AncestorsAreBlocks(t: Tree, h: HeaderId)
    requires Acyclic(t) && h in t.depth
    ensures Ancestors(t, h) <= t.blocks.Keys
    decreases t.depth[h]
  {
    if h != t.genesis {
      AncestorsAreBlocks(t, Parent(t, h));
      HeadersStep(PathTo(t, Parent(t, h)), BlockRecord(h, t.blocks[h]));
    }
  }

  /** Right after a successful poll the feed holds the whole chain of the reported tip. */
  lemma SuccessIsComplete(t: Tree, snaps: seq<Snapshot>)
    requires snaps != []
    requires Acyclic(t) && HonestRun(t, snaps)
    requires Succeeds(Run(snaps[..|snaps| - 1]), snaps[|snaps| - 1])
    ensures snaps[|snaps| - 1].tip in t.depth
    ensures Ancestors(t, snaps[|snaps| - 1].tip) <= Headers(Run(snaps).log)
    ensures t.genesis !in Headers(Run(snaps).log)
  {
    RunSafe(t, snaps);
  }

  /** The feed only ever grows: subscribers see an earlier run as a prefix of a longer one. */
  lemma {:induction false} FeedGrows(snaps: seq<Snapshot>, k: nat)
    requires k <= |snaps|
    ensures Run(snaps[..k]).log <= Run(snaps).log
    ensures Run(snaps[..k]).seen <= Run(snaps).seen
    decreases |snaps|
  {
    if k == |snaps| {
      assert snaps[..k] == snaps;
    } else {
      var n := |snaps| - 1;
      FeedGrows(snaps[..n], k);
      assert snaps[..n][..k] == snaps[..k];
    }
  }

  // ------------------------------------------- why the height must be exact

  lemma {:induction false} ShortWalk(t: Tree, store: map<HeaderId, Block>, h: HeaderId, height: nat)
    requires Acyclic(t) && h in t.depth && height <= t.depth[h]
    requires forall x :: x in t.blocks ==> x in store && store[x] == t.blocks[x]
    ensures var w := Walk({}, store, h, height);
      w.Walked? && w.batch == PathTo(t, h)[t.depth[h] - height..]
    decreases height
  {
    if height > 0 {
      var parent := Parent(t, h);
      ShortWalk(t, store, parent, height - 1);
      var p := PathTo(t, parent);
      assert (p + [BlockRecord(h, t.blocks[h])])[t.depth[h] - height..]
          == p[t.depth[parent] - (height - 1)..] + [BlockRecord(h, t.blocks[h])];
    } else {
      assert PathTo(t, h)[t.depth[h]..] == [];
    }
  }

  /** With a height beyond the tip's depth the walk tries genesis itself: it fails, or emits too much. */
  lemma {:induction false} LongWalk(t: Tree, store: map<HeaderId, Block>, h: HeaderId, height: nat)
    requires Acyclic(t) && h in t.depth && height > t.depth[h]
    requires forall x :: x in t.blocks ==> x in store && store[x] == t.blocks[x]
    ensures var w := Walk({}, store, h, height); w.Walked? ==> |w.batch| > t.depth[h]
    decreases t.depth[h]
  {
    if h != t.genesis {
      LongWalk(t, store, Parent(t, h), height - 1);
    }
  }

  /**
   * A new scanner whose node holds every block emits the whole chain of a tip
   * above genesis exactly when the reported height is exact; a smaller height
   * silently drops the oldest blocks.
   */
  lemma HeightMustBeExact(t: Tree, snap: Snapshot)
    requires Acyclic(t) && snap.Info? && snap.tip in t.blocks
    requires forall x :: x in t.blocks ==> x in snap.store && snap.store[x] == t.blocks[x]
    ensures snap.height <= t.depth[snap.tip] ==>
      Run([snap]).log == PathTo(t, snap.tip)[t.depth[snap.tip] - snap.height..]
    ensures Run([snap]).log == PathTo(t, snap.tip) <==> snap.height == t.depth[snap.tip]
  {
    var path := PathTo(t, snap.tip);
    assert [snap][..0] == [];
    assert Run([snap]) == Polled(INIT, snap);
    if snap.height <= t.depth[snap.tip] {
      ShortWalk(t, snap.store, snap.tip, snap.height);
      assert Run([snap]).log == [] + path[t.depth[snap.tip] - snap.height..];
      assert path[0..] == path;
    } else {
      LongWalk(t, snap.store, snap.tip, snap.height);
      assert Parent(t, snap.tip) in t.depth;
    }
  }

  lemma {:induction false} WalkBeyondSeen(t: Tree, seen: set<HeaderId>, store: map<HeaderId, Block>,
                                          h: HeaderId, height: nat)
    requires Acyclic(t) && h in t.depth
    requires forall x :: x in t.blocks ==> x in store && store[x] == t.blocks[x]
    requires height < |Unseen(t, seen, h)|
    ensures Walk(seen, store, h, height).Walked? && |Walk(seen, store, h, height).batch| == height
    decreases height
  {
    if height > 0 {
      WalkBeyondSeen(t, seen, store, Parent(t, h), height - 1);
    }
  }

  /**
   * Once something has been seen, a poll of a node that holds every block emits
   * exactly the unseen blocks if and only if the height reaches back to a seen one.
   */
  lemma HeightMustReachSeen(t: Tree, s: State, snap: Snapshot)
    requires Acyclic(t) && AncestorClosed(t, s.seen) && s.seen != {}
    requires snap.Info? && snap.tip in t.depth
    requires forall x :: x in t.blocks ==> x in snap.store && snap.store[x] == t.blocks[x]
    ensures Polled(s, snap).log == s.log + Unseen(t, s.seen, snap.tip)
      <==> snap.height >= |Unseen(t, s.seen, snap.tip)|
  {
    if snap.height >= |Unseen(t, s.seen, snap.tip)| {
      WalkFindsUnseen(t, s.seen, snap.store, snap.tip, snap.height);
      UnseenMembers(t, s.seen, snap.tip);
      forall x | x in Headers(Unseen(t, s.seen, snap.tip)) ensures x in snap.store {
      }
    } else {
      WalkBeyondSeen(t, s.seen, snap.store, snap.tip, snap.height);
    }
  }
}
