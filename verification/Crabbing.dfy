/** Latch crabbing in the thread-safe tree: which write latches one transaction holds while splits or
    merges run up its path. Pages are seen by their sizes, their parent ids and how often their entries
    were written; which page a descent goes to next is what the keys decide, so the path is given. Every
    write to the entries of an existing page asks for its latch. */
module Crabbing {
  const INVALID := -1

  datatype Kind = Inserting | Deleting

  datatype PageInfo = PageInfo(size: int, max: int, parent: int, version: nat)

  /** The page after its entries were written. */
  function Wrote(p: PageInfo, size: int): PageInfo {
    p.(size := size, version := p.version + 1)
  }

  predicate InsertSafe(p: PageInfo) {
    p.size + 1 < p.max
  }

  function MinSize(p: PageInfo): int {
    p.max / 2
  }

  predicate DeleteSafe(p: PageInfo) {
    p.size > MinSize(p)
  }

  predicate Safe(p: PageInfo, kind: Kind) {
    if kind.Inserting? then InsertSafe(p) else DeleteSafe(p)
  }

  /** One entry more does not fill the page; one less leaves it at least half full. */
  ghost predicate Keeps(p: PageInfo, kind: Kind) {
    match kind
    case Inserting => p.size + 1 < p.max
    case Deleting => 2 * p.size > p.max
  }

  lemma SafeKeeps(p: PageInfo, kind: Kind)
    ensures Safe(p, kind) <==> Keeps(p, kind)
  {
  }

  /** From the root to a leaf. */
  ghost predicate IsPath(pages: map<int, PageInfo>, path: seq<int>) {
    && |path| > 0 && INVALID !in pages
    && (forall i :: 0 <= i < |path| ==> path[i] in pages)
    && (forall i, j :: 0 <= i < j < |path| ==> path[i] != path[j])
    && pages[path[0]].parent == INVALID
    && (forall i :: 0 < i < |path| ==> pages[path[i]].parent == path[i - 1])
  }

  function Elems(s: seq<int>): set<int> {
    set x | x in s
  }

  /** All pages below place j of the path may pass a change on to their parents. */
  ghost predicate Unsafe(pages: map<int, PageInfo>, path: seq<int>, j: int, n: int, kind: Kind) {
    forall i :: 0 <= j < i < n && i < |path| ==> path[i] in pages && !Keeps(pages[path[i]], kind)
  }

  /** What a descent leaves: the latches from place j on, and a safe page there unless it is the root. */
  ghost predicate Crabbed(pages: map<int, PageInfo>, path: seq<int>, j: int, kind: Kind) {
    && 0 <= j < |path| && IsPath(pages, path) && Unsafe(pages, path, j, |path|, kind)
       && (j > 0 ==> Keeps(pages[path[j]], kind))
  }

  class LatchedTree {
    const internalMax: int
    var pages: map<int, PageInfo>
    var held: set<int>
    var crab: seq<int>
    var rootHeld: bool
    /** Ids of new pages. */
    var next: int
    ghost var rootReleases: nat

    /** The root latch is held, and was never let go, exactly while the page that was the root is held
        and still is the root. */
    ghost predicate RootOk(top: int)
      reads this
    {
      && rootReleases == (if rootHeld then 0 else 1)
      && (rootHeld ==> top in held && top in pages && pages[top].parent == INVALID)
      && forall q :: q in held && q in pages && pages[q].parent == INVALID ==> q == top && rootHeld
    }

    method LatchPage(q: int)
      requires q !in held
      modifies `held
      ensures held == old(held) + {q}
    {
      held := held + {q};
    }

    method UnlockRoot()
      modifies `rootHeld, `rootReleases
      ensures !rootHeld && rootReleases == old(rootReleases) + 1
    {
      rootHeld := false;
      rootReleases := rootReleases + 1;
    }

    /** Letting go of a page that is the root lets go of the root latch. */
    method UnlatchPage(q: int, ghost top: int)
      requires q in held && q in pages
      modifies `held, `rootHeld, `rootReleases
      ensures held == old(held) - {q} && (old(RootOk(top)) ==> RootOk(top))
      ensures rootReleases == old(rootReleases) + (if pages[q].parent == INVALID then 1 else 0)
      ensures rootHeld == (old(rootHeld) && pages[q].parent != INVALID)
    {
      if pages[q].parent == INVALID {
        UnlockRoot();
      }
      held := held - {q};
    }

    method ReleasePages(ghost top: int)
      requires Releasable(pages, held, crab)
      modifies `held, `crab, `rootHeld, `rootReleases
      ensures crab == [] && held == old(held) - Elems(old(crab)) && (old(RootOk(top)) ==> RootOk(top))
      ensures rootReleases >= old(rootReleases)
      ensures (exists k :: 0 <= k < |old(crab)| && pages[old(crab)[k]].parent == INVALID) ==>
          rootReleases > old(rootReleases)
    {
      var i := 0;
      assert crab[..0] == [];
      while i < |crab|
        invariant 0 <= i <= |crab| && crab == old(crab) && (old(RootOk(top)) ==> RootOk(top))
        invariant forall k :: i <= k < |crab| ==> crab[k] in held && crab[k] in pages
        invariant held == old(held) - Elems(crab[..i]) && rootReleases >= old(rootReleases)
        invariant (exists k :: 0 <= k < i && pages[crab[k]].parent == INVALID) ==> rootReleases > old(rootReleases)
      {
        assert crab[..i + 1] == crab[..i] + [crab[i]];
        UnlatchPage(crab[i], top);
        i := i + 1;
      }
      assert crab[..i] == crab;
      crab := [];
    }

    /** A page's entries change: its latch must be held. */
    method Write(q: int, size: int)
      requires q in held && q in pages
      modifies `pages
      ensures pages == old(pages)[q := Wrote(old(pages)[q], size)]
    {
      pages := pages[q := Wrote(pages[q], size)];
    }

    /** A descent that has come to place i and holds the latches from place j on. */
    ghost predicate Descending(path: seq<int>, i: int, j: int, kind: Kind)
      reads this
    {
      && IsPath(pages, path) && 0 <= j <= i < |path| && Unsafe(pages, path, j, i + 1, kind)
      && (j > 0 ==> Keeps(pages[path[j]], kind))
      && held == Elems(path[j..i + 1]) && crab == path[j..i] && RootOk(path[0])
    }

    /** The descent of a pessimistic insert, which comes with the root latch. */
    method CrabToLeaf(path: seq<int>, kind: Kind) returns (ghost j: int)
      requires IsPath(pages, path) && held == {} && crab == [] && rootHeld && rootReleases == 0
      modifies `held, `crab, `rootHeld, `rootReleases
      ensures Crabbed(pages, path, j, kind) && held == Elems(path[j..]) && crab == path[j..|path| - 1]
              && RootOk(path[0])
    {
      LatchRootPage(path, kind);
      var i := 0;
      j := 0;
      while i + 1 < |path|
        invariant Descending(path, i, j, kind)
      {
        j := Follow(path, i, j, kind);
        i := i + 1;
      }
      assert path[j..i + 1] == path[j..];
    }

    method LatchRootPage(path: seq<int>, ghost kind: Kind)
      requires IsPath(pages, path) && held == {} && crab == [] && rootHeld && rootReleases == 0
      modifies `held
      ensures Descending(path, 0, 0, kind)
    {
      LatchPage(path[0]);
      assert path[0..1] == [path[0]];
    }

    /** One step of the descent: latch the next page, and if it is safe let go of all above it. */
    method Follow(path: seq<int>, i: int, ghost j0: int, kind: Kind) returns (ghost j: int)
      requires i + 1 < |path| && Descending(path, i, j0, kind)
      modifies `held, `crab, `rootHeld, `rootReleases
      ensures Descending(path, i + 1, j, kind)
    {
      j := j0;
      LatchNext(path, i, j0);
      SafeKeeps(pages[path[i + 1]], kind);
      if Safe(pages[path[i + 1]], kind) {
        ListedOnce(pages, path, j0, i);
        Extend(path, j0, i);
        ReleasePages(path[0]);
        j := i + 1;
      }
    }

    method LatchNext(path: seq<int>, i: int, ghost j: int)
      requires IsPath(pages, path) && 0 <= j <= i && i + 1 < |path|
      requires held == Elems(path[j..i + 1]) && crab == path[j..i] && RootOk(path[0])
      modifies `held, `crab
      ensures held == Elems(path[j..i + 2]) && crab == path[j..i + 1] && RootOk(path[0])
    {
      Extend(path, j, i);
      LatchPage(path[i + 1]);
      crab := crab + [path[i]];
    }

    // -------------------------------------------------------------- insertion

    /** A full page keeps its minimum; the rest moves to a new one, some of its kids with it. */
    method Split(q: int) returns (extra: int)
      requires q in held && q in pages && pages[q].size == pages[q].max && Numbered(pages, next)
      modifies `pages, `next
      ensures SplitOff(old(pages), pages, q, extra) && Numbered(pages, next)
      ensures pages[q].size + pages[extra].size == old(pages[q].size)
      ensures pages[q].size <= pages[extra].size <= pages[q].size + 1
    {
      extra := next;
      next := next + 1;
      var from := pages[q];
      var rest := from.size - MinSize(from);
      assert KidsOf(pages, q, {});
      var moved: set<int> :| KidsOf(pages, q, moved);
      SplitsOff(pages, q, extra, moved, rest);
      Write(q, from.size - rest);
      pages := Rehomed(pages, moved, extra);
      pages := pages[extra := PageInfo(rest, from.max, from.parent, 0)];
    }

    /** The split runs up the path as far as pages fill up; each page it changes is latched. */
    method InsertIntoParent(was: int, extra: int, ghost path: seq<int>, ghost i: int, ghost j: int,
                            ghost orig: map<int, PageInfo>)
      requires Climbing(orig, pages, path, i, j, Inserting) && Roomy(orig) && was == path[i] && (i > j || j == 0)
      requires held == Elems(path[j..]) && RootOk(path[0]) && Numbered(pages, next) && extra in pages
               && extra !in Elems(path)
      modifies `pages, `next, `rootHeld, `rootReleases
      ensures RootOk(path[0]) && forall m :: 0 <= m < |path| ==> path[m] in pages
      ensures Untouched(old(pages), pages, Elems(path[j..i])) && (i > 0 ==> Grew(old(pages), pages, path[i - 1]))
      decreases i
    {
      OnPath(path, j, i);
      if pages[was].parent == INVALID {
        var _ := NewRoot(was, extra);
        return;
      }
      var parent := pages[was].parent;
      ghost var o := pages;
      var more := LinkInParent(parent, path, i, j, orig);
      ghost var w := pages;
      if more != INVALID {
        InsertIntoParent(parent, more, path, i - 1, j, orig);
      }
      ClimbWrites(o, w, pages, path, j, i);
    }

    /** The parent gets one entry more, and is split in turn when that fills it. */
    method LinkInParent(parent: int, ghost path: seq<int>, ghost i: int, ghost j: int,
                        ghost orig: map<int, PageInfo>) returns (more: int)
      requires Climbing(orig, pages, path, i, j, Inserting) && Roomy(orig) && i > j && parent == pages[path[i]].parent
      requires held == Elems(path[j..]) && RootOk(path[0]) && Numbered(pages, next)
      modifies `pages, `next
      ensures RootOk(path[0]) && Numbered(pages, next) && parent == path[i - 1]
              && Climbing(orig, pages, path, i - 1, j, Inserting)
      ensures Untouched(old(pages), pages, {parent}) && Grew(old(pages), pages, parent) && parent in held
      ensures more != INVALID ==> more in pages && more !in Elems(path) && more !in old(pages) && (i - 1 > j || j == 0)
      ensures pages[parent].size + (if more in pages && more != INVALID then pages[more].size else 0)
           == old(pages[parent].size) + 1
      ensures more != INVALID <==> old(pages[parent].size) + 1 == old(pages[parent].max)
    {
      ClimbUp(orig, pages, path, i, j, Inserting, pages[parent].size + 1);
      OnPath(path, j, i - 1);
      Write(parent, pages[parent].size + 1);
      ghost var o := pages;
      more := INVALID;
      if pages[parent].size == pages[parent].max {
        more := Split(parent);
        ClimbOn(orig, o, pages, path, i - 1, j, Inserting, more);
      }
    }

    /** A split root and its new brother get a root above them; the root latch goes. */
    method NewRoot(was: int, extra: int) returns (root: int)
      requires was in held && was in pages && extra in pages && extra !in held && was != extra
      requires RootOk(was) && pages[was].parent == INVALID && Numbered(pages, next)
               && forall q :: q in held ==> q in pages
      modifies `pages, `next, `rootHeld, `rootReleases
      ensures RootOk(was) && Untouched(old(pages), pages, {}) && Numbered(pages, next)
      ensures root !in old(pages) && root in pages && pages[root] == PageInfo(2, internalMax, INVALID, 0)
      ensures was in pages && extra in pages && pages[was].parent == root && pages[extra].parent == root
    {
      root := next;
      next := next + 1;
      pages := pages[root := PageInfo(2, internalMax, INVALID, 0)];
      pages := pages[was := pages[was].(parent := root)];
      pages := pages[extra := pages[extra].(parent := root)];
      UnlockRoot();
    }

    /** The crab set goes, then the leaf. */
    method ReleaseAll(path: seq<int>, ghost j: int)
      requires 0 <= j < |path| && (forall m :: 0 <= m < |path| ==> path[m] in pages)
               && forall a, b :: 0 <= a < b < |path| ==> path[a] != path[b]
      requires RootOk(path[0]) && held == Elems(path[j..]) && crab == path[j..|path| - 1]
      modifies `held, `crab, `rootHeld, `rootReleases
      ensures held == {} && crab == [] && !rootHeld && rootReleases == 1
    {
      PathEnds(pages, path, j);
      ReleasePages(path[0]);
      UnlatchPage(path[|path| - 1], path[0]);
    }

    /** A pessimistic insert: it lets go of everything it latched, and of the root latch exactly once. */
    method InsertIntoLeaf(path: seq<int>, present: bool) returns (ghost j: int)
      requires IsPath(pages, path) && Roomy(pages) && Numbered(pages, next) && held == {} && crab == [] && rootHeld
               && rootReleases == 0
      modifies this
      ensures held == {} && crab == [] && !rootHeld && rootReleases == 1
      ensures Crabbed(old(pages), path, j, Inserting) && Untouched(old(pages), pages, Elems(path[j..]))
      ensures Grew(old(pages), pages, path[|path| - 1])
      ensures LeafAfter(old(pages[path[|path| - 1]]), pages[path[|path| - 1]].size, present)
    {
      ghost var orig := pages;
      j := CrabToLeaf(path, Inserting);
      if present {
        var leaf := path[|path| - 1];
        OnPath(path, j, |path| - 1);
        Write(leaf, pages[leaf].size);
        ReleaseAll(path, j);
      } else {
        AddEntry(path, j, orig);
      }
    }

    /** The leaf gets one entry more; a leaf with room was safe, so it is the only page held. */
    method AddEntry(path: seq<int>, ghost j: int, ghost orig: map<int, PageInfo>)
      requires orig == pages && Crabbed(orig, path, j, Inserting) && Roomy(orig) && Numbered(pages, next)
      requires held == Elems(path[j..]) && crab == path[j..|path| - 1] && RootOk(path[0])
      modifies this
      ensures held == {} && crab == [] && !rootHeld && rootReleases == 1
      ensures Untouched(orig, pages, Elems(path[j..])) && Grew(orig, pages, path[|path| - 1])
      ensures LeafAfter(orig[path[|path| - 1]], pages[path[|path| - 1]].size, false)
    {
      var leaf := path[|path| - 1];
      OnPath(path, j, |path| - 1);
      Write(leaf, pages[leaf].size + 1);
      if pages[leaf].size < pages[leaf].max {
        assert j == |path| - 1;
        PathEnds(pages, path, j);
        UnlatchPage(leaf, path[0]);
      } else {
        SplitLeaf(leaf, path, j, orig);
        ReleaseAll(path, j);
      }
    }

    method SplitLeaf(leaf: int, ghost path: seq<int>, ghost j: int, ghost orig: map<int, PageInfo>)
      requires Crabbed(orig, path, j, Inserting) && Roomy(orig) && Numbered(pages, next) && leaf == path[|path| - 1]
      requires pages == orig[leaf := Wrote(orig[leaf], orig[leaf].size + 1)] && pages[leaf].size == pages[leaf].max
      requires held == Elems(path[j..]) && RootOk(path[0])
      modifies `pages, `next, `rootHeld, `rootReleases
      ensures RootOk(path[0]) && Untouched(old(pages), pages, held) && forall m :: 0 <= m < |path| ==> path[m] in pages
      ensures 2 * pages[leaf].size <= old(pages[leaf].size) <= 2 * pages[leaf].size + 1
    {
      ghost var last, o := |path| - 1, pages;
      OnPath(path, j, last);
      var extra := Split(leaf);
      ClimbOn(orig, o, pages, path, last, j, Inserting, extra);
      ghost var w := pages;
      InsertIntoParent(leaf, extra, path, last, j, orig);
      PathPart(path, j, |path|);
      Widen(o, w, {leaf}, held);
      Widen(w, pages, Elems(path[j..last]), held);
      Touched(o, w, pages, held);
    }

    // -------------------------------------------------------------- removal

    /** Entries, and kids with them, move from one page to another; both latches are held. */
    method Move(from: int, to: int, n: int)
      requires from in held && to in held && from in pages && to in pages && from != to && INVALID !in pages
      modifies `pages
      ensures MovedOver(old(pages), pages, from, to)
      ensures pages[from].size == old(pages[from].size) - n && pages[to].size == old(pages[to].size) + n
    {
      assert KidsOf(pages, from, {});
      var moved: set<int> :| KidsOf(pages, from, moved);
      MovesOver(pages, from, to, n, moved);
      Write(from, pages[from].size - n);
      Write(to, pages[to].size + n);
      pages := Rehomed(pages, moved, to);
    }

    /** A merge or a borrow runs up the path; each page it changes is latched, the neighbour by name. */
    method CoalesceOrRedistribute(node: int, ghost path: seq<int>, sibs: seq<int>, level: int, ghost j: int,
                                  ghost orig: map<int, PageInfo>)
      returns (changed: bool)
      requires Merging(orig, pages, path, sibs, level, j) && node == path[level] && held == Elems(path[j..])
      modifies `pages, `held, `rootHeld, `rootReleases
      ensures held == old(held) && Untouched(old(pages), pages, held + Elems(sibs))
      ensures level > 0 && old(Short(pages[node])) ==> FamilyGrew(old(pages), pages, path, sibs, level)
      ensures pages[path[0]].parent == INVALID && (changed ==> j == 0 && rootReleases == old(rootReleases) + 1)
      ensures !changed ==> SameRoots(old(pages), pages) && rootReleases == old(rootReleases)
                           && rootHeld == old(rootHeld)
      ensures changed <==> Collapses(orig, path, sibs, level)
      decreases level, 1
    {
      OnPath(path, j, level);
      changed := false;
      if !Short(pages[node]) {
        return;
      }
      MergeRoot(orig, pages, path, sibs, level, j);
      if pages[node].parent == INVALID {
        changed := AdjustRoot(node, |sibs| == 1);
        return;
      }
      changed := FillUp(node, path, sibs, level, j, orig);
    }

    /** A page that is not the root has fallen short. */
    method FillUp(node: int, ghost path: seq<int>, sibs: seq<int>, level: int, ghost j: int,
                  ghost orig: map<int, PageInfo>)
      returns (changed: bool)
      requires Merging(orig, pages, path, sibs, level, j) && node == path[level] && held == Elems(path[j..])
      requires Short(pages[node]) && pages[node].parent != INVALID && level > 0
      modifies `pages, `held, `rootHeld, `rootReleases
      ensures held == old(held) && Untouched(old(pages), pages, held + Elems(sibs))
      ensures FamilyGrew(old(pages), pages, path, sibs, level)
      ensures pages[path[0]].parent == INVALID && (changed ==> j == 0 && rootReleases == old(rootReleases) + 1)
      ensures !changed ==> SameRoots(old(pages), pages) && rootReleases == old(rootReleases)
                           && rootHeld == old(rootHeld)
      ensures changed <==> Collapses(orig, path, sibs, level)
      decreases level, 0
    {
      var parent := pages[node].parent;
      ghost var o := pages;
      CollapseStep(orig, pages, path, sibs, level, j);
      var merged := Rebalance(node, sibs[level], parent, path, sibs, level, j, orig);
      changed := false;
      if merged {
        ghost var w := pages;
        changed := CoalesceOrRedistribute(parent, path, sibs, level - 1, j, orig);
        BothSteps(o, w, pages, path, sibs, level, held + Elems(sibs), changed);
      }
    }

    /** Merge with the neighbour, or borrow from it: all three pages are written. */
    method Rebalance(node: int, neighbor: int, parent: int, ghost path: seq<int>, ghost sibs: seq<int>,
                     ghost level: int, ghost j: int,
                     ghost orig: map<int, PageInfo>)
      returns (merged: bool)
      requires Merging(orig, pages, path, sibs, level, j) && held == Elems(path[j..])
      requires level > 0 && node == path[level] && neighbor == sibs[level]
               && Short(pages[node]) && pages[node].parent == parent != INVALID
      modifies `pages, `held, `rootHeld, `rootReleases
      ensures held == old(held) && rootReleases == old(rootReleases) && rootHeld == old(rootHeld)
      ensures j < level && parent == path[level - 1]
      ensures Untouched(old(pages), pages, held + Elems(sibs)) && FamilyGrew(old(pages), pages, path, sibs, level)
      ensures SameRoots(old(pages), pages) && pages[path[0]].parent == INVALID
      ensures node in pages && neighbor in pages
      ensures pages[node].size + pages[neighbor].size == old(pages[node].size) + old(pages[neighbor].size)
      ensures if merged then pages[node].size == 0 || pages[neighbor].size == 0
              else pages[node].size == old(pages[node].size) + 1
      ensures merged <==> old(pages[neighbor].size + pages[node].size < pages[node].max)
      ensures merged ==> Merging(orig, pages, path, sibs, level - 1, j)
    {
      ghost var o := pages;
      MergeRoot(orig, pages, path, sibs, level, j);
      MergeFacts(orig, pages, path, sibs, level, j);
      OnPath(path, j, level);
      OnPath(path, j, level - 1);
      merged := Exchange(node, neighbor, parent, path, sibs, level, j, orig);
      assert neighbor in Elems(sibs);
      Widen(o, pages, {node, neighbor, parent}, held + Elems(sibs));
      SameRoot(o, pages, path[0]);
    }

    method Exchange(node: int, neighbor: int, parent: int, ghost path: seq<int>, ghost sibs: seq<int>,
                    ghost level: int, ghost j: int,
                    ghost orig: map<int, PageInfo>)
      returns (merged: bool)
      requires Merging(orig, pages, path, sibs, level, j) && 0 <= j < level && held == Elems(path[j..])
      requires node == path[level] && neighbor == sibs[level] && parent == path[level - 1]
               && pages[node].parent == parent
      requires neighbor in pages && neighbor !in held && neighbor != parent && node in held && parent in held
               && parent in pages && node != parent && pages[neighbor].parent != INVALID
      modifies `pages, `held, `rootHeld, `rootReleases
      ensures held == old(held) && rootReleases == old(rootReleases) && rootHeld == old(rootHeld)
      ensures Untouched(old(pages), pages, {node, neighbor, parent}) && FamilyGrew(old(pages), pages, path, sibs, level)
      ensures SameRoots(old(pages), pages)
      ensures node in pages && neighbor in pages
      ensures pages[node].size + pages[neighbor].size == old(pages[node].size) + old(pages[neighbor].size)
      ensures if merged then pages[node].size == 0 || pages[neighbor].size == 0
              else pages[node].size == old(pages[node].size) + 1
      ensures merged <==> old(pages[neighbor].size + pages[node].size < pages[node].max)
      ensures merged ==> Merging(orig, pages, path, sibs, level - 1, j)
    {
      ghost var o := pages;
      LatchPage(neighbor);
      merged := pages[neighbor].size + pages[node].size < pages[node].max;
      if merged {
        Merge(node, neighbor, parent, path, sibs, level, j, orig);
      } else {
        Borrow(node, neighbor, parent, path, sibs, level, j, orig);
      }
      SameRoot(o, pages, neighbor);
      UnlatchPage(neighbor, path[0]);
    }

    /** The page and its neighbour, in either order, become one; their parent loses an entry. */
    method Merge(node: int, neighbor: int, parent: int, ghost path: seq<int>, ghost sibs: seq<int>, ghost level: int,
                 ghost j: int, ghost orig: map<int, PageInfo>)
      requires Merging(orig, pages, path, sibs, level, j) && 0 <= j < level
      requires node == path[level] && neighbor == sibs[level] && parent == path[level - 1]
      requires neighbor in pages && neighbor in held && neighbor != parent && node in held && parent in held
               && node != parent && node != neighbor
      modifies `pages
      ensures Untouched(old(pages), pages, {node, neighbor, parent}) && FamilyGrew(old(pages), pages, path, sibs, level)
      ensures SameRoots(old(pages), pages) && Merging(orig, pages, path, sibs, level - 1, j)
      ensures pages[node].size + pages[neighbor].size == old(pages[node].size) + old(pages[neighbor].size)
      ensures pages[node].size == 0 || pages[neighbor].size == 0
    {
      ghost var o := pages;
      var first: bool := *;
      if first {
        Move(neighbor, node, pages[neighbor].size);
      } else {
        Move(node, neighbor, pages[node].size);
      }
      MergeStill(orig, o, pages, path, sibs, level, j);
      Write(parent, pages[parent].size - 1);
    }

    /** The page gets an entry of its neighbour, and their parent another key. */
    method Borrow(node: int, neighbor: int, parent: int, ghost path: seq<int>, ghost sibs: seq<int>, ghost level: int,
                  ghost j: int, ghost orig: map<int, PageInfo>)
      requires Merging(orig, pages, path, sibs, level, j) && 0 <= j < level
      requires node == path[level] && neighbor == sibs[level] && parent == path[level - 1]
      requires neighbor in pages && neighbor in held && neighbor != parent && node in held && parent in held
               && node != parent && node != neighbor
      modifies `pages
      ensures Untouched(old(pages), pages, {node, neighbor, parent}) && FamilyGrew(old(pages), pages, path, sibs, level)
      ensures SameRoots(old(pages), pages)
      ensures pages[node].size == old(pages[node].size) + 1 && pages[neighbor].size == old(pages[neighbor].size) - 1
      ensures pages[parent].size == old(pages[parent].size)
    {
      ghost var o := pages;
      Move(neighbor, node, 1);
      MergeStill(orig, o, pages, path, sibs, level, j);
      Write(parent, pages[parent].size);
    }

    /** An inner root with one kid left hands over to it, an empty leaf to nobody; both times the root
        latch goes. */
    method AdjustRoot(root: int, leaf: bool) returns (changed: bool)
      requires root in held && root in pages && INVALID !in pages && pages[root].parent == INVALID
      modifies `pages, `rootHeld, `rootReleases
      ensures Untouched(old(pages), pages, {root}) && pages[root].parent == INVALID
      ensures if changed then rootReleases == old(rootReleases) + 1
              else pages == old(pages) && rootReleases == old(rootReleases) && rootHeld == old(rootHeld)
      ensures changed <==> old(pages[root].size) == if leaf then 0 else 1
      ensures changed ==> pages[root].size == 0
    {
      changed := pages[root].size == if leaf then 0 else 1;
      if !changed {
        return;
      }
      if !leaf {
        Write(root, 0);
        var child: int := *;
        if child in pages && pages[child].parent == root {
          pages := pages[child := pages[child].(parent := INVALID)];
        }
      }
      UnlockRoot();
    }

    /** A pessimistic removal: it lets go of everything it latched. Of the root latch it lets go exactly
        once unless its merges reach the root and change it; then it does so more than once. */
    method RemoveFromLeaf(path: seq<int>, sibs: seq<int>, present: bool) returns (ghost j: int, changed: bool)
      requires IsPath(pages, path) && SibsOk(pages, path, sibs) && held == {} && crab == [] && rootHeld
               && rootReleases == 0
      modifies this
      ensures held == {} && crab == [] && Crabbed(old(pages), path, j, Deleting)
      ensures Untouched(old(pages), pages, Elems(path[j..]) + Elems(sibs))
              && (present ==> Grew(old(pages), pages, path[|path| - 1]))
      ensures if changed then rootReleases >= 2 else rootReleases == 1
      ensures changed <==> present && Collapses(old(pages), path, sibs, |path| - 1)
    {
      ghost var orig := pages;
      j := CrabToLeaf(path, Deleting);
      changed := false;
      if present {
        changed := Withdraw(path, sibs, j, orig);
      }
      if changed {
        ReleaseChanged(path, j);
      } else {
        ReleaseAll(path, j);
      }
    }

    /** What leaves every page's standing as a root alone leaves the root latch in order. */
    twostate lemma RootStays(top: int)
      requires old(RootOk(top)) && SameRoots(old(pages), pages) && held == old(held) && rootHeld == old(rootHeld)
               && rootReleases == old(rootReleases) && forall q :: q in held ==> q in old(pages)
      ensures RootOk(top)
    {
      if rootHeld {
        SameRoot(old(pages), pages, top);
      }
    }

    /** The leaf loses an entry, and the tree is put in order. */
    method Withdraw(path: seq<int>, sibs: seq<int>, ghost j: int,
                    ghost orig: map<int, PageInfo>) returns (changed: bool)
      requires orig == pages && Crabbed(orig, path, j, Deleting) && SibsOk(orig, path, sibs)
               && held == Elems(path[j..]) && RootOk(path[0])
      modifies `pages, `held, `rootHeld, `rootReleases
      ensures held == old(held) && Untouched(old(pages), pages, held + Elems(sibs))
              && Grew(old(pages), pages, path[|path| - 1])
      ensures pages[path[0]].parent == INVALID && (changed ==> j == 0 && rootReleases >= 1)
              && (!changed ==> RootOk(path[0]))
      ensures changed <==> Collapses(orig, path, sibs, |path| - 1)
    {
      ghost var last := |path| - 1;
      var leaf := path[|path| - 1];
      OnPath(path, j, last);
      TakeEntry(leaf, path[0]);
      MergeStarts(orig, path, sibs, last, j);
      changed := PutInOrder(leaf, path, sibs, j, orig);
      WroteFirst(orig, pages, leaf, orig[leaf].size - 1, held + Elems(sibs));
    }

    method PutInOrder(leaf: int, ghost path: seq<int>, sibs: seq<int>, ghost j: int, ghost orig: map<int, PageInfo>)
      returns (changed: bool)
      requires Merging(orig, pages, path, sibs, |path| - 1, j) && leaf == path[|path| - 1] && held == Elems(path[j..])
      requires RootOk(path[0]) && forall q :: q in held ==> q in pages
      modifies `pages, `held, `rootHeld, `rootReleases
      ensures held == old(held) && Untouched(old(pages), pages, held + Elems(sibs))
      ensures pages[path[0]].parent == INVALID && (changed ==> j == 0 && rootReleases >= 1)
              && (!changed ==> RootOk(path[0]))
      ensures changed <==> Collapses(orig, path, sibs, |path| - 1)
    {
      changed := CoalesceOrRedistribute(leaf, path, sibs, |sibs| - 1, j, orig);
      if !changed {
        RootStays(path[0]);
      }
    }

    method TakeEntry(leaf: int, ghost top: int)
      requires leaf in held && leaf in pages && RootOk(top) && forall q :: q in held ==> q in pages
      modifies `pages
      ensures pages == old(pages)[leaf := Wrote(old(pages)[leaf], old(pages)[leaf].size - 1)] && RootOk(top)
      ensures forall q :: q in held ==> q in pages
    {
      Write(leaf, pages[leaf].size - 1);
    }

    /** The release after a change of the root: the page that was the root still counts as one. */
    method ReleaseChanged(path: seq<int>, ghost j: int)
      requires j == 0 && |path| > 0 && (forall m :: 0 <= m < |path| ==> path[m] in pages)
               && forall a, b :: 0 <= a < b < |path| ==> path[a] != path[b]
      requires pages[path[0]].parent == INVALID && rootReleases >= 1 && held == Elems(path[j..])
               && crab == path[j..|path| - 1]
      modifies `held, `crab, `rootHeld, `rootReleases
      ensures held == {} && crab == [] && rootReleases >= 2
    {
      PathEnds(pages, path, j);
      assert |crab| > 0 ==> crab[0] == path[0];
      ReleasePages(path[0]);
      UnlatchPage(path[|path| - 1], path[0]);
    }
  }

  /** Taking one entry from page i of the path changes the root: each page from there up falls short and
      is merged with its neighbour, and the root is left with one kid or, as a leaf, with nothing. */
  predicate Collapses(o: map<int, PageInfo>, path: seq<int>, sibs: seq<int>, i: nat)
    requires i < |path| == |sibs| && (forall m :: 0 <= m < |path| ==> path[m] in o)
             && forall m :: 0 < m < |path| ==> sibs[m] in o
  {
    var p := o[path[i]];
    && 2 * p.size <= p.max
    && if i == 0 then p.size - 1 == (if |path| == 1 then 0 else 1)
       else o[sibs[i]].size + p.size - 1 < p.max && Collapses(o, path, sibs, i - 1)
  }

  lemma CollapseStep(orig: map<int, PageInfo>, pages: map<int, PageInfo>, path: seq<int>, sibs: seq<int>, i: int,
                     j: int)
    requires Merging(orig, pages, path, sibs, i, j) && Short(pages[path[i]]) && i > 0
    ensures Collapses(orig, path, sibs, i)
        <==> pages[sibs[i]].size + pages[path[i]].size < pages[path[i]].max && Collapses(orig, path, sibs, i - 1)
  {
  }

  /** Removals that let go of the root latch more than once: the last entry of the tree, and an entry
      of one of two leaves that then fit into one. */
  lemma RootsThatCollapse(r: int, a: int, b: int, max: int)
    requires max >= 2 && Distinct(r, a, b) && r != INVALID && a != INVALID && b != INVALID
    ensures var o := map[r := PageInfo(1, max, INVALID, 0)];
      IsPath(o, [r]) && SibsOk(o, [r], [r]) && Collapses(o, [r], [r], 0)
    ensures var o := map[r := PageInfo(2, 4, INVALID, 0), a := PageInfo(2, 4, r, 0), b := PageInfo(2, 4, r, 0)];
      IsPath(o, [r, a]) && SibsOk(o, [r, a], [r, b]) && Collapses(o, [r, a], [r, b], 1)
  {
    var o := map[r := PageInfo(2, 4, INVALID, 0), a := PageInfo(2, 4, r, 0), b := PageInfo(2, 4, r, 0)];
    assert Collapses(o, [r, a], [r, b], 0);
  }

  predicate Distinct(r: int, a: int, b: int) {
    r != a && r != b && a != b
  }

  predicate Short(p: PageInfo) {
    p.size < MinSize(p)
  }

  /** No page became a root or stopped being one. */
  ghost predicate SameRoots(o: map<int, PageInfo>, u: map<int, PageInfo>) {
    forall q {:trigger u[q]} :: q in o ==> q in u && (u[q].parent == INVALID <==> o[q].parent == INVALID)
  }

  lemma SameRootsOn(o: map<int, PageInfo>, w: map<int, PageInfo>, u: map<int, PageInfo>)
    requires SameRoots(o, w) && SameRoots(w, u)
    ensures SameRoots(o, u)
  {
    forall q | q in o ensures q in u && (u[q].parent == INVALID <==> o[q].parent == INVALID) {
      SameRoot(o, w, q);
      SameRoot(w, u, q);
    }
  }

  /** What two steps of a cascade do together. */
  lemma BothSteps(o: map<int, PageInfo>, w: map<int, PageInfo>, u: map<int, PageInfo>, path: seq<int>, sibs: seq<int>,
                  i: int, but: set<int>, changed: bool)
    requires Untouched(o, w, but) && Untouched(w, u, but) && FamilyGrew(o, w, path, sibs, i)
    requires SameRoots(o, w) && (!changed ==> SameRoots(w, u))
    ensures Untouched(o, u, but) && FamilyGrew(o, u, path, sibs, i) && (!changed ==> SameRoots(o, u))
  {
    Touched(o, w, u, but);
    GrewOn(o, w, u, path, sibs, i);
    if !changed {
      SameRootsOn(o, w, u);
    }
  }

  lemma SameRoot(o: map<int, PageInfo>, u: map<int, PageInfo>, q: int)
    requires SameRoots(o, u) && q in o
    ensures q in u && (u[q].parent == INVALID <==> o[q].parent == INVALID)
  {
  }

  /** A page, its neighbour and their parent were all written. */
  ghost predicate FamilyGrew(o: map<int, PageInfo>, u: map<int, PageInfo>, path: seq<int>, sibs: seq<int>, i: int) {
    0 < i < |path| && i < |sibs| && Grew(o, u, path[i]) && Grew(o, u, sibs[i]) && Grew(o, u, path[i - 1])
  }

  lemma GrewOn(o: map<int, PageInfo>, w: map<int, PageInfo>, u: map<int, PageInfo>, path: seq<int>, sibs: seq<int>,
               i: int)
    requires FamilyGrew(o, w, path, sibs, i) && exists but :: Untouched(w, u, but)
    ensures FamilyGrew(o, u, path, sibs, i)
  {
    var but :| Untouched(w, u, but);
  }

  lemma WroteFirst(o: map<int, PageInfo>, u: map<int, PageInfo>, q: int, size: int, but: set<int>)
    requires q in o && q in but && Untouched(o[q := Wrote(o[q], size)], u, but)
    ensures Untouched(o, u, but) && Grew(o, u, q)
  {
    var w := o[q := Wrote(o[q], size)];
    assert w[q].version > o[q].version;
  }

  lemma Widen(o: map<int, PageInfo>, u: map<int, PageInfo>, a: set<int>, b: set<int>)
    requires Untouched(o, u, a) && a <= b
    ensures Untouched(o, u, b)
  {
  }

  lemma Touched(o: map<int, PageInfo>, w: map<int, PageInfo>, u: map<int, PageInfo>, but: set<int>)
    requires Untouched(o, w, but) && Untouched(w, u, but)
    ensures Untouched(o, u, but)
  {
    forall q | q in o ensures q in w && w[q].version >= o[q].version {
    }
  }

  /** Where a cascade of merges finds a root. */
  lemma MergeRoot(orig: map<int, PageInfo>, pages: map<int, PageInfo>, path: seq<int>, sibs: seq<int>, i: int, j: int)
    requires Merging(orig, pages, path, sibs, i, j) && Short(pages[path[i]])
    ensures pages[path[i]].parent == INVALID <==> i == 0
    ensures i == 0 ==> j == 0
    ensures pages[path[0]].parent == INVALID
  {
    assert i > 0 ==> orig[path[i]].parent == path[i - 1] && path[i - 1] in orig;
  }

  /** The neighbour of each page on the path, under the same parent. */
  ghost predicate SibsOk(pages: map<int, PageInfo>, path: seq<int>, sibs: seq<int>) {
    && |sibs| == |path|
    && forall i :: 0 < i < |path| ==> sibs[i] in pages && pages[sibs[i]].parent == path[i - 1] && sibs[i] != path[i]
  }

  ghost predicate MovedOver(o: map<int, PageInfo>, u: map<int, PageInfo>, from: int, to: int) {
    && from in o && to in o && u.Keys == o.Keys && Untouched(o, u, {from, to}) && Grew(o, u, from) && Grew(o, u, to)
    && (forall c :: c in o ==> (u[c].parent == INVALID <==> o[c].parent == INVALID))
    && forall c :: c in o && o[c].parent != from && c != from && c != to ==> u[c] == o[c]
  }

  lemma MovesOver(o: map<int, PageInfo>, from: int, to: int, n: int, moved: set<int>)
    requires from in o && to in o && from != to && KidsOf(o, from, moved) && INVALID !in o
    ensures var w := o[from := Wrote(o[from], o[from].size - n)];
      MovedOver(o, Rehomed(w[to := Wrote(w[to], w[to].size + n)], moved, to), from, to)
  {
  }

  /** A cascade of merges that has come to a level, where one entry has gone. */
  ghost predicate Merging(orig: map<int, PageInfo>, pages: map<int, PageInfo>, path: seq<int>, sibs: seq<int>, i: int,
                          j: int) {
    && Climbing(orig, pages, path, i, j, Deleting) && SibsOk(orig, path, sibs)
    && pages[path[i]] == Wrote(orig[path[i]], orig[path[i]].size - 1)
    && forall m :: 0 < m <= i ==> sibs[m] in pages && pages[sibs[m]] == orig[sibs[m]]
  }

  lemma SibsOffPath(orig: map<int, PageInfo>, path: seq<int>, sibs: seq<int>, i: int)
    requires IsPath(orig, path) && SibsOk(orig, path, sibs) && 0 < i < |path|
    ensures sibs[i] !in Elems(path)
  {
    assert path[i - 1] in orig && orig[sibs[i]].parent != INVALID;
    forall m | 0 <= m < |path| ensures path[m] != sibs[i] {
      if m > 0 && m != i {
        assert orig[path[m]].parent == path[m - 1];
        assert m - 1 < i - 1 || i - 1 < m - 1;
      }
    }
  }

  lemma MergeFacts(orig: map<int, PageInfo>, pages: map<int, PageInfo>, path: seq<int>, sibs: seq<int>, i: int, j: int)
    requires Merging(orig, pages, path, sibs, i, j) && Short(pages[path[i]]) && pages[path[i]].parent != INVALID
    ensures 0 <= j < i && pages[path[i]].parent == path[i - 1] && sibs[i] in pages && sibs[i] !in Elems(path[j..])
            && sibs[i] != path[i - 1] && sibs[i] != path[i]
    ensures path[i] != path[i - 1]
  {
    assert i > j ==> !Keeps(orig[path[i]], Deleting);
    SibsOffPath(orig, path, sibs, i);
    OnPath(path, 0, i);
    OnPath(path, 0, i - 1);
  }

  /** Nothing above the level has changed. */
  lemma MergeStill(orig: map<int, PageInfo>, o: map<int, PageInfo>, u: map<int, PageInfo>, path: seq<int>,
                   sibs: seq<int>, i: int, j: int)
    requires Merging(orig, o, path, sibs, i, j) && 0 < i
             && (MovedOver(o, u, path[i], sibs[i]) || MovedOver(o, u, sibs[i], path[i]))
    ensures path[i - 1] in u && u[path[i - 1]] == orig[path[i - 1]]
    ensures j < i ==> Merging(orig, OneLess(u, path[i - 1]), path, sibs, i - 1, j)
    ensures forall m :: 0 <= m < |path| ==> path[m] in u
  {
    SibsOffPath(orig, path, sibs, i);
    forall m | 0 <= m < i ensures path[m] in u && u[path[m]] == orig[path[m]] {
      OnPath(path, 0, m);
      if m > 0 {
        OnPath(path, 0, m - 1);
      }
    }
    forall m | 0 < m < i ensures sibs[m] in u && u[sibs[m]] == orig[sibs[m]] {
      SibsOffPath(orig, path, sibs, m);
      OnPath(path, 0, m - 1);
      OnPath(path, 0, i);
      OnPath(path, 0, i - 1);
    }
    MergeUp(orig, u, path, sibs, i, j);
  }

  /** A page loses an entry. */
  function OneLess(u: map<int, PageInfo>, q: int): map<int, PageInfo>
    requires q in u
  {
    u[q := Wrote(u[q], u[q].size - 1)]
  }

  lemma MergeUp(orig: map<int, PageInfo>, u: map<int, PageInfo>, path: seq<int>, sibs: seq<int>, i: int, j: int)
    requires Crabbed(orig, path, j, Deleting) && SibsOk(orig, path, sibs) && 0 < i < |path| && INVALID !in u
    requires forall m :: 0 <= m < |path| ==> path[m] in u
    requires forall m :: 0 <= m < i ==> u[path[m]] == orig[path[m]]
    requires forall m :: 0 < m < i ==> sibs[m] in u && u[sibs[m]] == orig[sibs[m]]
    ensures j < i ==> Merging(orig, OneLess(u, path[i - 1]), path, sibs, i - 1, j)
  {
    forall m | 0 < m < i ensures sibs[m] != path[i - 1] {
      SibsOffPath(orig, path, sibs, m);
      OnPath(path, 0, i - 1);
    }
  }

  lemma MergeStarts(orig: map<int, PageInfo>, path: seq<int>, sibs: seq<int>, i: int, j: int)
    requires Crabbed(orig, path, j, Deleting) && SibsOk(orig, path, sibs) && i == |path| - 1
    ensures Merging(orig, orig[path[i] := Wrote(orig[path[i]], orig[path[i]].size - 1)], path, sibs, i, j)
  {
    forall m | 0 < m <= i ensures sibs[m] != path[i] {
      SibsOffPath(orig, path, sibs, m);
      OnPath(path, 0, i);
    }
  }

  /** Latched pages, each listed once. */
  ghost predicate Releasable(pages: map<int, PageInfo>, held: set<int>, crab: seq<int>) {
    && (forall i :: 0 <= i < |crab| ==> crab[i] in held && crab[i] in pages)
    && (forall i, j :: 0 <= i < j < |crab| ==> crab[i] != crab[j])
  }

  predicate KidsOf(pages: map<int, PageInfo>, q: int, kids: set<int>) {
    forall c :: c in kids ==> c in pages && pages[c].parent == q && c != q
  }

  /** All pages are still there, and the entries of none but the given ones were written. */
  ghost predicate Untouched(o: map<int, PageInfo>, u: map<int, PageInfo>, but: set<int>) {
    forall q {:trigger u[q]} {:trigger q in u} :: q in o ==>
      q in u && u[q].version >= o[q].version && (q in but || (u[q].size == o[q].size && u[q].version == o[q].version))
  }

  /** The entries of a page were written. */
  ghost predicate Grew(o: map<int, PageInfo>, u: map<int, PageInfo>, q: int) {
    q in o && q in u && u[q].version > o[q].version
  }

  ghost predicate Numbered(pages: map<int, PageInfo>, next: int) {
    next > 0 && forall q :: q in pages ==> 0 <= q < next
  }

  /** A leaf keeps its size when an entry is overwritten, and otherwise grows by one; a leaf that this would
      fill keeps half of the entries, rounded down. */
  ghost predicate LeafAfter(p: PageInfo, size: int, present: bool) {
    if present then size == p.size
    else if p.size + 1 < p.max then size == p.size + 1
    else 2 * size <= p.size + 1 <= 2 * size + 1
  }

  /** No page is full between operations. */
  ghost predicate Roomy(pages: map<int, PageInfo>) {
    forall q :: q in pages ==> pages[q].size < pages[q].max
  }

  ghost predicate SplitOff(o: map<int, PageInfo>, u: map<int, PageInfo>, q: int, extra: int) {
    && q in o && extra !in o && extra != INVALID && u.Keys == o.Keys + {extra} && u[q].parent == o[q].parent
       && Untouched(o, u, {q})
    && (forall c :: c in o && c != q ==> u[c] == o[c] || (o[c].parent == q && u[c] == o[c].(parent := extra)))
  }

  /** Kids that a move has taken to another page. */
  function Rehomed(pages: map<int, PageInfo>, moved: set<int>, home: int): map<int, PageInfo> {
    map c | c in pages :: if c in moved then pages[c].(parent := home) else pages[c]
  }

  lemma SplitsOff(o: map<int, PageInfo>, q: int, extra: int, moved: set<int>, rest: int)
    requires q in o && extra !in o && extra != INVALID && KidsOf(o, q, moved)
    ensures var w := Rehomed(o[q := Wrote(o[q], o[q].size - rest)], moved, extra);
      SplitOff(o, w[extra := PageInfo(rest, o[q].max, o[q].parent, 0)], q, extra)
  {
  }

  lemma ClimbOn(orig: map<int, PageInfo>, o: map<int, PageInfo>, u: map<int, PageInfo>, path: seq<int>, i: int, j: int,
                kind: Kind, extra: int)
    requires Climbing(orig, o, path, i, j, kind) && SplitOff(o, u, path[i], extra)
    ensures Climbing(orig, u, path, i, j, kind) && extra !in Elems(path)
  {
    forall m | 0 <= m < i ensures u[path[m]] == orig[path[m]] {
      if m > 0 {
        assert orig[path[m]].parent == path[m - 1] && path[m - 1] != path[i];
      }
    }
  }

  lemma ClimbUp(orig: map<int, PageInfo>, o: map<int, PageInfo>, path: seq<int>, i: int, j: int, kind: Kind, size: int)
    requires Climbing(orig, o, path, i, j, kind) && i > j
    ensures o[path[i]].parent == path[i - 1] && o[path[i - 1]] == orig[path[i - 1]]
    ensures Climbing(orig, o[path[i - 1] := Wrote(o[path[i - 1]], size)], path, i - 1, j, kind)
  {
  }

  /** A cascade that has come to place i of the path: above, nothing has changed yet. */
  ghost predicate Climbing(orig: map<int, PageInfo>, pages: map<int, PageInfo>, path: seq<int>, i: int, j: int,
                           kind: Kind) {
    && Crabbed(orig, path, j, kind) && j <= i < |path|
    && (forall m :: 0 <= m < |path| ==> path[m] in pages)
    && (forall m :: 0 <= m < i ==> pages[path[m]] == orig[path[m]])
    && pages[path[i]].parent == orig[path[i]].parent
    && INVALID !in pages
  }

  lemma OnPath(path: seq<int>, j: int, i: int)
    requires 0 <= i < |path| && 0 <= j
    ensures j <= i ==> path[i] in Elems(path[j..])
    ensures path[i] in Elems(path)
  {
    if j <= i {
      assert path[j..][i - j] == path[i];
    }
  }

  /** The parent's write and those further up. */
  lemma ClimbWrites(o: map<int, PageInfo>, w: map<int, PageInfo>, u: map<int, PageInfo>, path: seq<int>, j: int, i: int)
    requires 0 <= j < i <= |path| && forall a, b :: 0 <= a < b < |path| ==> path[a] != path[b]
    requires Untouched(o, w, {path[i - 1]}) && Untouched(w, u, Elems(path[j..i - 1])) && Grew(o, w, path[i - 1])
    ensures Untouched(o, u, Elems(path[j..i])) && Grew(o, u, path[i - 1])
  {
    PathPart(path, j, i);
    Widen(o, w, {path[i - 1]}, Elems(path[j..i]));
    Widen(w, u, Elems(path[j..i - 1]), Elems(path[j..i]));
    Touched(o, w, u, Elems(path[j..i]));
  }

  lemma PathPart(path: seq<int>, j: int, i: int)
    requires 0 <= j < i <= |path| && forall a, b :: 0 <= a < b < |path| ==> path[a] != path[b]
    ensures Elems(path[j..i]) == Elems(path[j..i - 1]) + {path[i - 1]} && path[i - 1] !in Elems(path[j..i - 1])
  {
    assert path[j..i] == path[j..i - 1] + [path[i - 1]];
  }

  lemma PathEnds(pages: map<int, PageInfo>, path: seq<int>, j: int)
    requires 0 <= j < |path| && (forall a, b :: 0 <= a < b < |path| ==> path[a] != path[b])
             && forall m :: 0 <= m < |path| ==> path[m] in pages
    ensures Elems(path[j..]) - Elems(path[j..|path| - 1]) == {path[|path| - 1]}
    ensures Releasable(pages, Elems(path[j..]), path[j..|path| - 1])
  {
    var s := path[j..|path| - 1];
    assert path[j..] == s + [path[|path| - 1]];
    forall k | 0 <= k < |s| ensures s[k] in path[j..] {
      assert s[k] == path[j..][k];
    }
  }

  lemma ListedOnce(pages: map<int, PageInfo>, path: seq<int>, j: int, i: int)
    requires IsPath(pages, path) && 0 <= j <= i && i + 1 < |path|
    ensures Releasable(pages, Elems(path[j..i + 2]), path[j..i + 1])
  {
    var s := path[j..i + 1];
    forall k | 0 <= k < |s| ensures s[k] in path[j..i + 2] {
      assert s[k] == path[j..i + 2][k];
    }
  }

  lemma Extend(path: seq<int>, j: int, i: int)
    requires 0 <= j <= i && i + 1 < |path| && forall a, b :: 0 <= a < b < |path| ==> path[a] != path[b]
    ensures path[j..i] + [path[i]] == path[j..i + 1]
    ensures Elems(path[j..i + 1]) + {path[i + 1]} == Elems(path[j..i + 2])
    ensures path[i + 1] !in Elems(path[j..i + 1])
    ensures Elems(path[j..i + 2]) - Elems(path[j..i + 1]) == {path[i + 1]} == Elems(path[i + 1..i + 2])
  {
    assert path[j..i + 2] == path[j..i + 1] + [path[i + 1]];
    assert path[i + 1..i + 2] == [path[i + 1]];
  }
}
