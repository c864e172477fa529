/**
 * Byte budgets in a tree: a reservation is charged to a level and every level
 * above it, which other children share.
 */
module Budgets {

  class ByteBudget {
    const limit: int
    const parent: ByteBudget?
    var used: nat
    /** This level and every level above it. */
    ghost const path: seq<ByteBudget>

    ghost predicate Chained()
      decreases |path|
    {
      && path != [] && path[0] == this
      && (if parent == null then path == [this] else path[1..] == parent.path && parent.Chained())
    }

    constructor (limit: int, parent: ByteBudget?)
      requires parent != null ==> parent.Chained()
      ensures Chained() && this.limit == limit && this.parent == parent && used == 0
    {
      this.limit, this.parent, used := limit, parent, 0;
      path := [this] + if parent == null then [] else parent.path;
    }

    /** Charges every level, or none at all when one of them lacks room. */
    method TryReserve(bytes: nat, ghost levels: set<ByteBudget>) returns (ok: bool)
      requires Chained() && (forall n <- path :: n in levels)
      modifies path
      ensures ok <==> HasRoom(old(Uses(levels)), this, bytes)
      ensures Uses(levels) == if ok then Charged(old(Uses(levels)), this, bytes) else old(Uses(levels))
    {
      PathApart(this);
      var node: ByteBudget? := this;
      ghost var i := 0;
      while node != null
        invariant i <= |path| && (if node == null then i == |path| else i < |path| && node == path[i])
        invariant forall k :: 0 <= k < |path| ==> path[k].used == old(path[k].used)
        invariant forall k :: 0 <= k < i ==> path[k].used + bytes <= path[k].limit
        decreases |path| - i
      {
        PathOf(this, i);
        if node.used + bytes > node.limit { return false; }
        node, i := node.parent, i + 1;
      }
      node, i := this, 0;
      while node != null
        invariant i <= |path| && (if node == null then i == |path| else i < |path| && node == path[i])
        invariant forall k :: 0 <= k < |path| ==> path[k].used == old(path[k].used) + if k < i then bytes else 0
        decreases |path| - i
      {
        PathOf(this, i);
        node.used := node.used + bytes;
        node, i := node.parent, i + 1;
      }
      return true;
    }

    /** Gives bytes back at every level, never below zero. */
    method Release(bytes: nat, ghost levels: set<ByteBudget>)
      requires Chained() && (forall n <- path :: n in levels)
      modifies path
      ensures Uses(levels) == Refunded(old(Uses(levels)), this, bytes)
    {
      PathApart(this);
      var node: ByteBudget? := this;
      ghost var i := 0;
      while node != null
        invariant i <= |path| && (if node == null then i == |path| else i < |path| && node == path[i])
        invariant forall k :: 0 <= k < |path| ==> path[k].used == if k < i then Clamped(old(path[k].used) - bytes) else old(path[k].used)
        decreases |path| - i
      {
        PathOf(this, i);
        node.used := Clamped(node.used - bytes);
        node, i := node.parent, i + 1;
      }
    }
  }

  class SubscriptionBudget {
    const bytes: ByteBudget
    const maxFrames: int
    var frames: nat

    constructor (maxFrames: int, maxBytes: int, parent: ByteBudget)
      requires parent.Chained()
      ensures fresh(bytes) && bytes.Chained() && bytes.limit == maxBytes && bytes.parent == parent && bytes.used == 0
      ensures this.maxFrames == maxFrames && frames == 0
    {
      this.maxFrames, frames := maxFrames, 0;
      bytes := new ByteBudget(maxBytes, parent);
    }

    method TryReserve(size: nat, ghost levels: set<ByteBudget>) returns (ok: bool)
      requires bytes.Chained() && (forall n <- bytes.path :: n in levels)
      modifies this, bytes.path
      ensures ok <==> old(frames) + 1 <= maxFrames && HasRoom(old(Uses(levels)), bytes, size)
      ensures frames == old(frames) + if ok then 1 else 0
      ensures Uses(levels) == if ok then Charged(old(Uses(levels)), bytes, size) else old(Uses(levels))
    {
      if frames + 1 > maxFrames { return false; }
      ok := bytes.TryReserve(size, levels);
      if ok { frames := frames + 1; }
    }

    method Release(size: nat, ghost levels: set<ByteBudget>)
      requires bytes.Chained() && (forall n <- bytes.path :: n in levels)
      modifies this, bytes.path
      ensures frames == Clamped(old(frames) - 1)
      ensures Uses(levels) == Refunded(old(Uses(levels)), bytes, size)
    {
      frames := Clamped(frames - 1);
      bytes.Release(size, levels);
    }
  }

  function Clamped(n: int): nat {
    if n < 0 then 0 else n
  }

  ghost function Uses(levels: set<ByteBudget>): map<ByteBudget, nat>
    reads levels
  {
    map n <- levels :: n.used
  }

  ghost predicate HasRoom(uses: map<ByteBudget, nat>, b: ByteBudget, bytes: nat) {
    forall n <- b.path :: n in uses && uses[n] + bytes <= n.limit
  }

  ghost function Charged(uses: map<ByteBudget, nat>, b: ByteBudget, bytes: nat): map<ByteBudget, nat> {
    map n <- uses :: if n in b.path then uses[n] + bytes else uses[n]
  }

  ghost function Refunded(uses: map<ByteBudget, nat>, b: ByteBudget, bytes: nat): map<ByteBudget, nat> {
    map n <- uses :: if n in b.path then Clamped(uses[n] - bytes) else uses[n]
  }

  // ----- the chain -----------------------------------------------------------------

  lemma {:induction false} PathOf(b: ByteBudget, i: nat)
    requires b.Chained() && i < |b.path|
    ensures b.path[i].Chained() && b.path[i].path == b.path[i..]
    ensures if b.path[i].parent == null then i + 1 == |b.path| else i + 1 < |b.path| && b.path[i + 1] == b.path[i].parent
    decreases i
  {
    if i > 0 {
      PathOf(b, i - 1);
      assert b.path[i] == b.path[i - 1].path[1];
      assert b.path[i..] == b.path[i - 1..][1..];
    }
    if b.path[i].parent != null {
      var node := b.path[i];
      assert node.parent.Chained() && node.path[1..] == node.parent.path && node.path == b.path[i..];
      assert node.path[1] == node.parent.path[0] == node.parent;
    }
  }

  /** No level is above itself. */
  lemma {:induction false} PathApart(b: ByteBudget)
    requires b.Chained()
    ensures forall i, j :: 0 <= i < j < |b.path| ==> b.path[i] != b.path[j]
  {
    forall i, j | 0 <= i < j < |b.path| ensures b.path[i] != b.path[j] {
      PathOf(b, i);
      PathOf(b, j);
      assert |b.path[i].path| > |b.path[j].path|;
    }
  }

  // ----- reservations and matching releases --------------------------------------------

  /** A reservation that was granted: where, for how many bytes, and the subscription whose frame it is, if any. */
  datatype Reservation = Reservation(at: ByteBudget, bytes: nat, frame: bool)

  /** What every level counts, the frames each subscription counts, and what is outstanding. */
  datatype Books = Books(uses: map<ByteBudget, nat>, frames: map<ByteBudget, nat>, outstanding: seq<Reservation>)

  /** A release names the outstanding reservation it matches. */
  datatype Entry = Reserve(at: ByteBudget, bytes: nat) | ReserveFrame(at: ByteBudget, bytes: nat, maxFrames: int) | Release(index: nat)

  ghost function Post(books: Books, e: Entry): Books {
    match e
    case Reserve(at, bytes) =>
      if HasRoom(books.uses, at, bytes)
      then Books(Charged(books.uses, at, bytes), books.frames, books.outstanding + [Reservation(at, bytes, false)])
      else books
    case ReserveFrame(at, bytes, maxFrames) =>
      if at in books.frames && books.frames[at] + 1 <= maxFrames && HasRoom(books.uses, at, bytes)
      then Books(Charged(books.uses, at, bytes), books.frames[at := books.frames[at] + 1], books.outstanding + [Reservation(at, bytes, true)])
      else books
    case Release(i) =>
      if i >= |books.outstanding| then books
      else
        var r := books.outstanding[i];
        var held: int := if r.at in books.frames then books.frames[r.at] else 0;
        Books(Refunded(books.uses, r.at, r.bytes),
              if r.frame && r.at in books.frames then books.frames[r.at := Clamped(held - 1)] else books.frames,
              books.outstanding[..i] + books.outstanding[i + 1..])
  }

  ghost function Posted(books: Books, entries: seq<Entry>): Books {
    if entries == [] then books else Post(Posted(books, entries[..|entries| - 1]), entries[|entries| - 1])
  }

  /** The bytes outstanding at a level and below it. */
  ghost function Owed(outstanding: seq<Reservation>, n: ByteBudget): nat {
    if outstanding == [] then 0
    else
      var last := outstanding[|outstanding| - 1];
      Owed(outstanding[..|outstanding| - 1], n) + if n in last.at.path then last.bytes else 0
  }

  ghost function FramesOwed(outstanding: seq<Reservation>, n: ByteBudget): nat {
    if outstanding == [] then 0
    else
      var last := outstanding[|outstanding| - 1];
      FramesOwed(outstanding[..|outstanding| - 1], n) + if last.frame && last.at == n then 1 else 0
  }

  /** Every level counts exactly what is outstanding at it and below, and stays within its limit. */
  ghost predicate Balanced(books: Books) {
    && (forall n <- books.uses :: books.uses[n] == Owed(books.outstanding, n) && (books.uses[n] == 0 || books.uses[n] <= n.limit))
    && (forall n <- books.frames :: books.frames[n] == FramesOwed(books.outstanding, n))
  }

  lemma {:induction false} OwedWithout(outstanding: seq<Reservation>, i: nat, n: ByteBudget)
    requires i < |outstanding|
    ensures var r, rest := outstanding[i], outstanding[..i] + outstanding[i + 1..];
            && Owed(outstanding, n) == Owed(rest, n) + (if n in r.at.path then r.bytes else 0)
            && FramesOwed(outstanding, n) == FramesOwed(rest, n) + if r.frame && r.at == n then 1 else 0
  {
    var rest := outstanding[..i] + outstanding[i + 1..];
    if i < |outstanding| - 1 {
      var init := outstanding[..|outstanding| - 1];
      assert rest[..|rest| - 1] == init[..i] + init[i + 1..];
      OwedWithout(init, i, n);
    } else {
      assert rest == outstanding[..i];
    }
  }

  /** The books after a granted reservation. */
  lemma {:induction false} GrantBalances(books: Books, at: ByteBudget, bytes: nat, frame: bool)
    requires Balanced(books) && HasRoom(books.uses, at, bytes)
    ensures var outstanding := books.outstanding + [Reservation(at, bytes, frame)];
            && (forall n <- books.uses :: Charged(books.uses, at, bytes)[n] == Owed(outstanding, n)
                                          && (Charged(books.uses, at, bytes)[n] == 0 || Charged(books.uses, at, bytes)[n] <= n.limit))
            && (forall n: ByteBudget :: FramesOwed(outstanding, n) == FramesOwed(books.outstanding, n) + if frame && n == at then 1 else 0)
  {
    assert (books.outstanding + [Reservation(at, bytes, frame)])[..|books.outstanding|] == books.outstanding;
  }

  lemma {:induction false} ReleaseBalances(books: Books, i: nat)
    requires Balanced(books) && i < |books.outstanding|
    ensures Balanced(Post(books, Release(i)))
    ensures var r := books.outstanding[i];
            && (forall n <- books.uses :: n in r.at.path ==> r.bytes <= books.uses[n])
            && (r.frame && r.at in books.frames ==> books.frames[r.at] >= 1)
  {
    var r := books.outstanding[i];
    forall n: ByteBudget
      ensures var rest := books.outstanding[..i] + books.outstanding[i + 1..];
              && Owed(books.outstanding, n) == Owed(rest, n) + (if n in r.at.path then r.bytes else 0)
              && FramesOwed(books.outstanding, n) == FramesOwed(rest, n) + if r.frame && r.at == n then 1 else 0 {
      OwedWithout(books.outstanding, i, n);
    }
  }

  /** One entry keeps the books balanced, a refused one changes nothing, and a release never reaches the clamp. */
  lemma {:induction false} PostBalances(books: Books, e: Entry)
    requires Balanced(books)
    ensures Balanced(Post(books, e))
    ensures |Post(books, e).outstanding| == |books.outstanding| ==> Post(books, e) == books
    ensures e.Release? && e.index < |books.outstanding| ==>
              var r := books.outstanding[e.index];
              && (forall n <- books.uses :: n in r.at.path ==> r.bytes <= books.uses[n])
              && (r.frame && r.at in books.frames ==> books.frames[r.at] >= 1)
  {
    match e
    case Release(i) => if i < |books.outstanding| { ReleaseBalances(books, i); }
    case Reserve(at, bytes) => if HasRoom(books.uses, at, bytes) { GrantBalances(books, at, bytes, false); }
    case ReserveFrame(at, bytes, _) => if HasRoom(books.uses, at, bytes) { GrantBalances(books, at, bytes, true); }
  }

  /** The books a tree of budgets opens with. */
  ghost function Opening(levels: set<ByteBudget>, subscriptions: set<ByteBudget>): Books {
    Books(map n <- levels :: 0, map n <- subscriptions :: 0, [])
  }

  lemma {:induction false} RunBalances(levels: set<ByteBudget>, subscriptions: set<ByteBudget>, entries: seq<Entry>)
    ensures Balanced(Posted(Opening(levels, subscriptions), entries))
  {
    if entries != [] {
      RunBalances(levels, subscriptions, entries[..|entries| - 1]);
      PostBalances(Posted(Opening(levels, subscriptions), entries[..|entries| - 1]), entries[|entries| - 1]);
    }
  }

  /** When everything has been released, every level is empty again. */
  lemma {:induction false} NothingLeaks(levels: set<ByteBudget>, subscriptions: set<ByteBudget>, entries: seq<Entry>)
    requires Posted(Opening(levels, subscriptions), entries).outstanding == []
    ensures Posted(Opening(levels, subscriptions), entries) == Opening(levels, subscriptions)
  {
    RunBalances(levels, subscriptions, entries);
    SameLevels(Opening(levels, subscriptions), entries);
  }

  lemma {:induction false} SameLevels(books: Books, entries: seq<Entry>)
    ensures Posted(books, entries).uses.Keys == books.uses.Keys && Posted(books, entries).frames.Keys == books.frames.Keys
  {
    if entries != [] { SameLevels(books, entries[..|entries| - 1]); }
  }
}
