/** The kernel's allocator of virtual address ranges: sorted lists of free and used page ranges. */
module Vmm {
  import opened Options
  import opened Words

  datatype Range = Range(vpn: nat, pages: nat) {
    function End(): nat { vpn + pages }
    predicate Has(v: nat) { vpn <= v < End() }
  }

  ghost predicate Covers(l: seq<Range>, v: nat) {
    exists i :: 0 <= i < |l| && l[i].Has(v)
  }

  // Sorted, non-empty ranges with at least `gap` pages between any two.
  ghost predicate Spaced(l: seq<Range>, gap: nat) {
    && (forall i :: 0 <= i < |l| ==> l[i].pages > 0)
    && (forall i, j :: 0 <= i < j < |l| ==> l[i].End() + gap <= l[j].vpn)
  }

  lemma CoversConcat(a: seq<Range>, b: seq<Range>, v: nat)
    ensures Covers(a + b, v) <==> Covers(a, v) || Covers(b, v)
  {
    if i :| 0 <= i < |a| && a[i].Has(v) {
      assert (a + b)[i].Has(v);
    }
    if i :| 0 <= i < |b| && b[i].Has(v) {
      assert (a + b)[|a| + i].Has(v);
    }
  }

  lemma CoversOne(r: Range, v: nat)
    ensures Covers([r], v) <==> r.Has(v)
  {
    assert [r][0] == r;
  }

  // Replacing a run of a spaced list by ranges that keep clear of the neighbours.
  ghost predicate Fits(pre: seq<Range>, mid: seq<Range>, post: seq<Range>, gap: nat) {
    && (forall i, j :: 0 <= i < |pre| && 0 <= j < |mid| ==> pre[i].End() + gap <= mid[j].vpn)
    && (forall i, j :: 0 <= i < |mid| && 0 <= j < |post| ==> mid[i].End() + gap <= post[j].vpn)
  }

  lemma SpacedParts(pre: seq<Range>, mid: seq<Range>, post: seq<Range>, gap: nat)
    requires Spaced(pre + mid + post, gap)
    ensures Spaced(pre, gap) && Spaced(mid, gap) && Spaced(post, gap) && Fits(pre, mid, post, gap)
    ensures forall i, j :: 0 <= i < |pre| && 0 <= j < |post| ==> pre[i].End() + gap <= post[j].vpn
  {
    SpacedTwo(pre + mid, post, gap);
    SpacedTwo(pre, mid, gap);
    assert forall i :: 0 <= i < |pre| ==> (pre + mid)[i] == pre[i];
    assert forall i :: 0 <= i < |mid| ==> mid[i] == (pre + mid)[i + |pre|];
  }

  lemma SpacedTwo(a: seq<Range>, b: seq<Range>, gap: nat)
    requires Spaced(a + b, gap)
    ensures Spaced(a, gap) && Spaced(b, gap)
    ensures forall i, j :: 0 <= i < |a| && 0 <= j < |b| ==> a[i].End() + gap <= b[j].vpn
  {
    assert forall i :: 0 <= i < |a| ==> a[i] == (a + b)[i];
    assert forall i :: 0 <= i < |b| ==> b[i] == (a + b)[i + |a|];
  }

  lemma SpacedJoin(pre: seq<Range>, mid: seq<Range>, post: seq<Range>, gap: nat)
    requires Spaced(pre, gap) && Spaced(mid, gap) && Spaced(post, gap) && Fits(pre, mid, post, gap)
    requires forall i, j :: 0 <= i < |pre| && 0 <= j < |post| ==> pre[i].End() + gap <= post[j].vpn
    ensures Spaced(pre + mid + post, gap)
  {
  }

  lemma Splice(pre: seq<Range>, before: seq<Range>, after: seq<Range>, post: seq<Range>, gap: nat)
    requires Spaced(pre + before + post, gap) && Spaced(after, gap) && Fits(pre, after, post, gap)
    ensures Spaced(pre + after + post, gap)
    ensures forall v :: Covers(pre + after + post, v) <==>
      (Covers(pre + before + post, v) && !Covers(before, v)) || Covers(after, v)
  {
    SpacedParts(pre, before, post, gap);
    SpacedJoin(pre, after, post, gap);
    forall v
      ensures Covers(pre + after + post, v) <==>
              (Covers(pre + before + post, v) && !Covers(before, v)) || Covers(after, v)
    {
      CoversConcat(pre + after, post, v);
      CoversConcat(pre, after, v);
      CoversConcat(pre + before, post, v);
      CoversConcat(pre, before, v);
    }
  }

  // A list in normal form is determined by the pages it covers.
  lemma {:induction false} NormalFormUnique(a: seq<Range>, b: seq<Range>)
    requires Spaced(a, 1) && Spaced(b, 1)
    requires forall v :: Covers(a, v) <==> Covers(b, v)
    ensures a == b
  {
    if a == [] && b == [] {
    } else if a == [] {
      assert b[0].Has(b[0].vpn) && Covers(b, b[0].vpn);
    } else if b == [] {
      assert a[0].Has(a[0].vpn) && Covers(a, a[0].vpn);
    } else {
      FirstRangeBelow(a, b);
      FirstRangeBelow(b, a);
      assert a[0] == b[0];
      forall v ensures Covers(a[1..], v) <==> Covers(b[1..], v) {
        TailCovers(a, v);
        TailCovers(b, v);
      }
      NormalFormUnique(a[1..], b[1..]);
    }
  }

  lemma TailCovers(a: seq<Range>, v: nat)
    requires Spaced(a, 1) && a != []
    ensures Covers(a[1..], v) <==> Covers(a, v) && !a[0].Has(v)
  {
    assert a == [a[0]] + a[1..];
    CoversConcat([a[0]], a[1..], v);
    CoversOne(a[0], v);
  }

  // The first range of b starts no later than that of a, and if it starts there, ends no later.
  lemma FirstRangeBelow(a: seq<Range>, b: seq<Range>)
    requires Spaced(a, 1) && Spaced(b, 1) && a != [] && b != []
    requires forall v :: Covers(a, v) <==> Covers(b, v)
    ensures b[0].vpn <= a[0].vpn
    ensures b[0].vpn == a[0].vpn ==> b[0].pages <= a[0].pages
  {
    assert a[0].Has(a[0].vpn);
    assert Covers(b, a[0].vpn);
    assert !Covers(a, a[0].End());
    assert !b[0].Has(a[0].End());
  }

  // ---------------------------------------------------------------- array_* helpers

  // Index of the first range that starts at or after vpn.
  function LowerBound(l: seq<Range>, vpn: nat): (idx: nat)
    ensures idx <= |l|
    ensures idx < |l| ==> l[idx].vpn >= vpn
    ensures forall i :: 0 <= i < idx ==> l[i].vpn < vpn
  {
    if l == [] || l[0].vpn >= vpn then 0 else 1 + LowerBound(l[1..], vpn)
  }

  lemma SpacedAfter(l: seq<Range>, gap: nat, vpn: nat)
    requires Spaced(l, gap)
    ensures forall i :: LowerBound(l, vpn) <= i < |l| ==> l[i].vpn >= vpn
  {
  }

  // The guard pages around an allocation of len bytes, in 64-bit arithmetic.
  function PagesWithGuards(len: nat): nat {
    ((len - 1) % SIZE_MOD) / PAGE_SIZE + 3
  }

  // Everything in the kernel half is free, used or reserved, and only one of these.
  ghost predicate ExactlyOne(lo: nat, hi: nat, free: seq<Range>, used: seq<Range>, reserved: seq<Range>, v: nat) {
    && (lo <= v < hi <==> Covers(free, v) || Covers(used, v) || Covers(reserved, v))
    && !(Covers(free, v) && Covers(used, v))
    && !(Covers(free, v) && Covers(reserved, v))
    && !(Covers(used, v) && Covers(reserved, v))
  }

  ghost predicate Accounted(lo: nat, hi: nat, free: seq<Range>, used: seq<Range>, reserved: seq<Range>) {
    forall v: nat :: ExactlyOne(lo, hi, free, used, reserved, v)
  }

  // No page is both free and used.
  ghost predicate Apart(free: seq<Range>, used: seq<Range>) {
    forall v: nat :: !(Covers(free, v) && Covers(used, v))
  }

  ghost predicate Guarded(used: seq<Range>) {
    forall i :: 0 <= i < |used| ==> used[i].pages >= 3
  }

  // The pages handed to the client: all but the first and the last of a used range.
  ghost function Data(u: Range): Range
    requires u.pages >= 3
  {
    Range(u.vpn + 1, u.pages - 2)
  }

  // The data of two allocations is at least two pages apart.
  lemma GuardPages(used: seq<Range>, i: nat, j: nat)
    requires Spaced(used, 0) && Guarded(used) && i < j < |used|
    ensures Data(used[i]).End() + 2 <= Data(used[j]).vpn
  {
  }

  // The free list is determined by what is used and reserved.
  lemma FreeDetermined(lo: nat, hi: nat, free: seq<Range>, used: seq<Range>, reserved: seq<Range>,
                       free': seq<Range>, used': seq<Range>, reserved': seq<Range>)
    requires Spaced(free, 1) && Spaced(free', 1)
    requires Accounted(lo, hi, free, used, reserved) && Accounted(lo, hi, free', used', reserved')
    requires forall v :: Covers(used, v) || Covers(reserved, v) <==> Covers(used', v) || Covers(reserved', v)
    ensures free == free'
  {
    forall v ensures Covers(free, v) <==> Covers(free', v) {
      assert ExactlyOne(lo, hi, free, used, reserved, v);
      assert ExactlyOne(lo, hi, free', used', reserved', v);
    }
    NormalFormUnique(free, free');
  }

  // What is left of a range around a cut.
  function Leftover(range: Range, vpn: nat, pages: nat): seq<Range>
    requires range.vpn <= vpn && vpn + pages <= range.End()
  {
    if range.vpn == vpn && range.pages == pages then []
    else if vpn > range.vpn && vpn + pages < range.End() then
      [Range(range.vpn, vpn - range.vpn), Range(vpn + pages, range.End() - vpn - pages)]
    else if vpn > range.vpn then [Range(range.vpn, vpn - range.vpn)]
    else [Range(vpn + pages, range.End() - vpn - pages)]
  }

  lemma LeftoverCovers(range: Range, vpn: nat, pages: nat, v: nat)
    requires range.vpn <= vpn && vpn + pages <= range.End() && pages > 0
    ensures Covers(Leftover(range, vpn, pages), v) <==> range.Has(v) && !Range(vpn, pages).Has(v)
  {
    var l := Leftover(range, vpn, pages);
    if |l| == 1 {
      CoversOne(l[0], v);
    } else if |l| == 2 {
      assert l == [l[0]] + [l[1]];
      CoversConcat([l[0]], [l[1]], v);
      CoversOne(l[0], v);
      CoversOne(l[1], v);
    }
  }

  // Cutting a part out of entry idx of a normal-form list.
  lemma CutStep(free: seq<Range>, idx: nat, vpn: nat, pages: nat)
    requires Spaced(free, 1) && idx < |free| && pages > 0
    requires free[idx].vpn <= vpn && vpn + pages <= free[idx].End()
    ensures var free' := free[..idx] + Leftover(free[idx], vpn, pages) + free[idx + 1..];
            && Spaced(free', 1)
            && forall v: nat :: Covers(free', v) <==> Covers(free, v) && !Range(vpn, pages).Has(v)
  {
    var pre, post, parts := free[..idx], free[idx + 1..], Leftover(free[idx], vpn, pages);
    assert free == pre + [free[idx]] + post;
    Splice(pre, [free[idx]], parts, post, 1);
    forall v: nat
      ensures Covers(pre + parts + post, v) <==> Covers(free, v) && !Range(vpn, pages).Has(v)
    {
      CoversOne(free[idx], v);
      LeftoverCovers(free[idx], vpn, pages, v);
    }
  }

  // The entry array_binsearch leads to is the one that contains the page.
  lemma FindEntry(free: seq<Range>, vpn: nat, k: nat)
    requires Spaced(free, 1) && k < |free| && free[k].Has(vpn)
    ensures var idx := LowerBound(free, vpn);
            if idx < |free| && free[idx].vpn == vpn then k == idx else idx > 0 && k == idx - 1
  {
    SpacedAfter(free, 1, vpn);
  }

  lemma EntryInHalf(lo: nat, hi: nat, free: seq<Range>, used: seq<Range>, reserved: seq<Range>, k: nat)
    requires Spaced(free, 1) && Accounted(lo, hi, free, used, reserved) && k < |free|
    ensures lo <= free[k].vpn && free[k].End() <= hi
  {
    var last := free[k].End() - 1;
    assert free[k].Has(free[k].vpn) && free[k].Has(last);
    assert ExactlyOne(lo, hi, free, used, reserved, free[k].vpn);
    assert ExactlyOne(lo, hi, free, used, reserved, last);
  }

  // A range that moves from the free to the reserved pages.
  lemma ReserveAccounts(lo: nat, hi: nat, free: seq<Range>, used: seq<Range>, reserved: seq<Range>, r: Range, free': seq<Range>)
    requires Accounted(lo, hi, free, used, reserved)
    requires forall v: nat :: Covers(free', v) <==> Covers(free, v) && !r.Has(v)
    requires forall v: nat :: r.Has(v) ==> Covers(free, v)
    ensures Accounted(lo, hi, free', used, reserved + [r])
    ensures forall v: nat :: Covers(reserved + [r], v) <==> Covers(reserved, v) || r.Has(v)
  {
    forall v: nat
      ensures ExactlyOne(lo, hi, free', used, reserved + [r], v)
      ensures Covers(reserved + [r], v) <==> Covers(reserved, v) || r.Has(v)
    {
      assert ExactlyOne(lo, hi, free, used, reserved, v);
      CoversConcat(reserved, [r], v);
      CoversOne(r, v);
    }
  }

  // A range that moves between the free and the used pages.
  lemma MoveAccounts(lo: nat, hi: nat, free: seq<Range>, used: seq<Range>, reserved: seq<Range>,
                     free': seq<Range>, used': seq<Range>, r: Range)
    requires Accounted(lo, hi, free, used, reserved)
    requires forall v: nat :: Covers(free', v) <==> Covers(free, v) && !r.Has(v)
    requires forall v: nat :: Covers(used', v) <==> Covers(used, v) || r.Has(v)
    requires forall v: nat :: r.Has(v) ==> Covers(free, v)
    ensures Accounted(lo, hi, free', used', reserved)
  {
    forall v: nat ensures ExactlyOne(lo, hi, free', used', reserved, v) {
      assert ExactlyOne(lo, hi, free, used, reserved, v);
    }
  }

  lemma ReturnAccounts(lo: nat, hi: nat, free: seq<Range>, used: seq<Range>, reserved: seq<Range>,
                       free': seq<Range>, used': seq<Range>, r: Range)
    requires Accounted(lo, hi, free, used, reserved)
    requires forall v: nat :: Covers(free', v) <==> Covers(free, v) || r.Has(v)
    requires forall v: nat :: Covers(used', v) <==> Covers(used, v) && !r.Has(v)
    requires forall v: nat :: r.Has(v) ==> Covers(used, v)
    ensures Accounted(lo, hi, free', used', reserved)
  {
    forall v: nat ensures ExactlyOne(lo, hi, free', used', reserved, v) {
      assert ExactlyOne(lo, hi, free, used, reserved, v);
    }
  }

  lemma ContainedCovered(free: seq<Range>, k: nat, r: Range)
    requires k < |free| && free[k].vpn <= r.vpn && r.End() <= free[k].End()
    ensures forall v: nat :: r.Has(v) ==> Covers(free, v)
  {
    forall v: nat | r.Has(v) ensures Covers(free, v) {
      assert free[k].Has(v);
    }
  }

  // Inserting into, and removing from, the sorted list of used ranges.
  lemma InsertFits(used: seq<Range>, r: Range, idx: nat)
    requires Spaced(used, 0) && r.pages > 0 && idx == LowerBound(used, r.vpn)
    requires forall v: nat :: r.Has(v) ==> !Covers(used, v)
    ensures Fits(used[..idx], [r], used[idx..], 0)
  {
    SpacedAfter(used, 0, r.vpn);
    forall i | 0 <= i < idx ensures used[i].End() <= r.vpn {
      assert r.Has(r.vpn) && !used[i].Has(r.vpn);
    }
    forall i | idx <= i < |used| ensures r.End() <= used[i].vpn {
      assert used[i].Has(used[i].vpn) && !r.Has(used[i].vpn);
    }
  }

  lemma InsertStep(used: seq<Range>, r: Range)
    requires Spaced(used, 0) && r.pages > 0 && forall v: nat :: r.Has(v) ==> !Covers(used, v)
    ensures Spaced(Inserted(used, r), 0)
    ensures forall v: nat :: Covers(Inserted(used, r), v) <==> Covers(used, v) || r.Has(v)
  {
    hide Covers, Fits, LowerBound;
    var idx := LowerBound(used, r.vpn);
    var pre, post := used[..idx], used[idx..];
    assert used == pre + [] + post;
    InsertFits(used, r, idx);
    Splice(pre, [], [r], post, 0);
    forall v: nat ensures Covers(pre + [r] + post, v) <==> Covers(used, v) || r.Has(v) {
      CoversOne(r, v);
      CoversNone(v);
    }
  }

  // array_lencap_sorted_insert
  function Inserted(l: seq<Range>, r: Range): seq<Range> {
    l[..LowerBound(l, r.vpn)] + [r] + l[LowerBound(l, r.vpn)..]
  }

  lemma CoversNone(v: nat)
    ensures !Covers([], v)
  {
  }

  lemma RemoveStep(used: seq<Range>, idx: nat)
    requires Spaced(used, 0) && idx < |used|
    ensures var used' := used[..idx] + used[idx + 1..];
            Spaced(used', 0) && forall v: nat :: Covers(used', v) <==> Covers(used, v) && !used[idx].Has(v)
  {
    var pre, post := used[..idx], used[idx + 1..];
    assert used == pre + [used[idx]] + post && pre + [] + post == pre + post;
    Splice(pre, [used[idx]], [], post, 0);
    forall v: nat ensures Covers(pre + post, v) <==> Covers(used, v) && !used[idx].Has(v) {
      CoversOne(used[idx], v);
    }
  }

  // A released range joined with the free neighbours it touches.
  function Joined(free: seq<Range>, idx: nat, r: Range): seq<Range>
    requires idx <= |free|
    requires idx > 0 ==> free[idx - 1].vpn <= r.vpn
  {
    var left := idx > 0 && free[idx - 1].End() == r.vpn;
    var right := idx < |free| && r.End() == free[idx].vpn;
    if left && right then
      free[..idx - 1] + [Range(free[idx - 1].vpn, free[idx].End() - free[idx - 1].vpn)] + free[idx + 1..]
    else if left then free[..idx - 1] + [Range(free[idx - 1].vpn, r.End() - free[idx - 1].vpn)] + free[idx..]
    else if right then free[..idx] + [Range(r.vpn, free[idx].End() - r.vpn)] + free[idx + 1..]
    else free[..idx] + [r] + free[idx..]
  }

  // Where a range that overlaps no free entry lies among them.
  lemma ReleaseFits(free: seq<Range>, r: Range, idx: nat)
    requires Spaced(free, 1) && r.pages > 0 && idx == LowerBound(free, r.vpn)
    requires forall v: nat :: r.Has(v) ==> !Covers(free, v)
    ensures forall i :: 0 <= i < idx ==> free[i].End() <= r.vpn
    ensures forall i :: idx <= i < |free| ==> r.End() <= free[i].vpn
  {
    hide LowerBound, Covers;
    assert Spaced(free, 0);
    InsertFits(free, r, idx);
    var one := [r];
    assert one[0] == r;
    forall i | 0 <= i < idx ensures free[i].End() <= r.vpn {
      assert free[..idx][i] == free[i];
    }
    forall i | idx <= i < |free| ensures r.End() <= free[i].vpn {
      assert free[idx..][i - idx] == free[i];
    }
  }

  // The joined range keeps a page's distance from the entries that stay.
  lemma JoinFits(free: seq<Range>, r: Range, idx: nat, from: nat, to: nat, start: nat, end: nat)
    requires Spaced(free, 1) && r.pages > 0 && idx <= |free|
    requires forall i :: 0 <= i < idx ==> free[i].End() <= r.vpn
    requires forall i :: idx <= i < |free| ==> r.End() <= free[i].vpn
    requires if idx > 0 && free[idx - 1].End() == r.vpn then from == idx - 1 && start == free[from].vpn
             else from == idx && start == r.vpn
    requires if idx < |free| && r.End() == free[idx].vpn then to == idx + 1 && end == free[idx].End()
             else to == idx && end == r.End()
    ensures start < end && from <= to
    ensures Fits(free[..from], [Range(start, end - start)], free[to..], 1)
  {
    JoinClear(free, r, idx, from, to, start, end);
    FitsOne(free, from, to, Range(start, end - start));
  }

  lemma JoinClear(free: seq<Range>, r: Range, idx: nat, from: nat, to: nat, start: nat, end: nat)
    requires Spaced(free, 1) && r.pages > 0 && idx <= |free|
    requires forall i :: 0 <= i < idx ==> free[i].End() <= r.vpn
    requires forall i :: idx <= i < |free| ==> r.End() <= free[i].vpn
    requires if idx > 0 && free[idx - 1].End() == r.vpn then from == idx - 1 && start == free[from].vpn
             else from == idx && start == r.vpn
    requires if idx < |free| && r.End() == free[idx].vpn then to == idx + 1 && end == free[idx].End()
             else to == idx && end == r.End()
    ensures start < end && from <= to <= |free|
    ensures forall i :: 0 <= i < from ==> free[i].End() + 1 <= start
    ensures forall i :: to <= i < |free| ==> end + 1 <= free[i].vpn
  {
  }

  lemma FitsOne(free: seq<Range>, from: nat, to: nat, r: Range)
    requires from <= to <= |free|
    requires forall i :: 0 <= i < from ==> free[i].End() + 1 <= r.vpn
    requires forall i :: to <= i < |free| ==> r.End() + 1 <= free[i].vpn
    ensures Fits(free[..from], [r], free[to..], 1)
  {
  }

  // Joining keeps the normal form and adds exactly the released pages.
  lemma JoinStep(free: seq<Range>, r: Range, idx: nat)
    requires Spaced(free, 1) && r.pages > 0 && idx == LowerBound(free, r.vpn)
    requires forall v: nat :: r.Has(v) ==> !Covers(free, v)
    ensures Spaced(Joined(free, idx, r), 1)
    ensures forall v: nat :: Covers(Joined(free, idx, r), v) <==> Covers(free, v) || r.Has(v)
  {
    hide Covers, Spaced, Fits, LowerBound, Joined;
    ReleaseFits(free, r, idx);
    var left := idx > 0 && free[idx - 1].End() == r.vpn;
    var right := idx < |free| && r.End() == free[idx].vpn;
    var from := if left then idx - 1 else idx;
    var to := if right then idx + 1 else idx;
    var start := if left then free[idx - 1].vpn else r.vpn;
    var end := if right then free[idx].End() else r.End();
    JoinFits(free, r, idx, from, to, start, end);
    var pre, before, post := free[..from], free[from..to], free[to..];
    var after := [Range(start, end - start)];
    JoinedShape(free, r, idx, from, to, start, end);
    OneSpaced(after[0], 1);
    Splice(pre, before, after, post, 1);
    forall v: nat ensures Covers(Joined(free, idx, r), v) <==> Covers(free, v) || r.Has(v) {
      CoversOne(after[0], v);
      JoinedPages(free, r, idx, from, to, v);
      CoversConcat(pre + before, post, v);
      CoversConcat(pre, before, v);
    }
  }

  lemma JoinedShape(free: seq<Range>, r: Range, idx: nat, from: nat, to: nat, start: nat, end: nat)
    requires idx <= |free| && (idx > 0 ==> free[idx - 1].vpn <= r.vpn)
    requires if idx > 0 && free[idx - 1].End() == r.vpn then from == idx - 1 && start == free[from].vpn
             else from == idx && start == r.vpn
    requires if idx < |free| && r.End() == free[idx].vpn then to == idx + 1 && end == free[idx].End()
             else to == idx && end == r.End()
    ensures start <= end
    ensures free == free[..from] + free[from..to] + free[to..]
    ensures Joined(free, idx, r) == free[..from] + [Range(start, end - start)] + free[to..]
  {
    assert from <= to <= |free|;
    assert free[..from] + free[from..to] == free[..to];
    assert free == free[..to] + free[to..];
  }

  lemma VpnOfVaddr(vpn: nat)
    ensures ((vpn + 1) * PAGE_SIZE) / PAGE_SIZE - 1 == vpn
  {
  }

  lemma OneSpaced(r: Range, gap: nat)
    requires r.pages > 0
    ensures Spaced([r], gap)
  {
  }

  // The replaced entries together with the released range make up the joined range.
  lemma JoinedPages(free: seq<Range>, r: Range, idx: nat, from: nat, to: nat, v: nat)
    requires from <= idx <= to <= |free| && idx <= from + 1 && to <= idx + 1
    requires from < idx ==> free[from].End() == r.vpn
    requires to > idx ==> r.End() == free[idx].vpn
    ensures var start := if from < idx then free[from].vpn else r.vpn;
            var end := if to > idx then free[idx].End() else r.End();
            start <= v < end <==> Covers(free[from..to], v) || r.Has(v)
  {
    var before := free[from..to];
    if from < idx && v < r.vpn && free[from].vpn <= v {
      assert before[0].Has(v);
    }
    if to > idx && r.End() <= v < free[idx].End() {
      assert before[idx - from].Has(v);
    }
  }

  // Entry i is the first one with n pages.
  predicate FirstFit(free: seq<Range>, i: int, n: nat) {
    0 <= i < |free| && free[i].pages >= n && forall j :: 0 <= j < i ==> free[j].pages < n
  }

  // The free list after n pages are taken from the front of entry i.
  function Taken(free: seq<Range>, i: nat, n: nat): seq<Range>
    requires i < |free| && n <= free[i].pages
  {
    if free[i].pages > n then free[i := Range(free[i].vpn + n, free[i].pages - n)] else free[..i] + free[i + 1..]
  }

  // The slots past the end of the array after a removal, which moves the later entries down and leaves
  // the old last entry behind, and after an insertion, which uses up one slot.
  function AfterRemove(list: seq<Range>, stale: seq<Range>): seq<Range>
    requires list != []
  {
    [list[|list| - 1]] + stale
  }

  function AfterInsert(stale: seq<Range>): seq<Range> { if stale == [] then [] else stale[1..] }

  // The slots after a part is cut out of entry k: cutting all of it removes the entry, and cutting out of
  // the middle inserts one.
  function CutStale(free: seq<Range>, stale: seq<Range>, k: nat, vpn: nat, pages: nat): seq<Range>
    requires k < |free|
  {
    var before, after := free[k].vpn < vpn, vpn + pages < free[k].End();
    if before && after then AfterInsert(stale) else if before || after then stale else AfterRemove(free, stale)
  }

  // The slots after range r is released: a merge with both neighbours removes an entry, no merge inserts
  // one, and a merge with what lies past the end changes that.
  function ReleaseStale(free: seq<Range>, stale: seq<Range>, r: Range, outside: Range): seq<Range> {
    var idx := LowerBound(free, r.vpn);
    var next := if idx < |free| then free[idx] else Past(stale, outside);
    var left, right := idx > 0 && free[idx - 1].End() == r.vpn, r.End() == next.vpn;
    if left && right then
      [if idx < |free| then free[|free| - 1] else Range(free[idx - 1].vpn, r.pages + free[idx - 1].pages + next.pages)] + stale
    else if left then stale
    else if !right then AfterInsert(stale)
    else if idx == |free| && stale != [] then stale[0 := Range(r.vpn, r.pages + next.pages)]
    else stale
  }

  // u was taken from the front of entry i, the first one large enough.
  predicate TakenAt(was: seq<Range>, wasStale: seq<Range>, now: seq<Range>, stale: seq<Range>, u: Range, i: int) {
    && FirstFit(was, i, u.pages) && u.vpn == was[i].vpn && now == Taken(was, i, u.pages)
    && stale == if was[i].pages > u.pages then wasStale else AfterRemove(was, wasStale)
  }

  // What the slot after the last entry holds; outside is the memory past the slots ever used.
  function Past(stale: seq<Range>, outside: Range): Range { if stale == [] then outside else stale[0] }

  predicate LeftAdjacent(free: seq<Range>, r: Range) { free != [] && free[|free| - 1].End() == r.vpn }

  // r has been returned to the free list, which stays in normal form.
  ghost predicate Returned(was: seq<Range>, now: seq<Range>, r: Range) {
    Spaced(now, 1) && forall v: nat :: Covers(now, v) <==> Covers(was, v) || r.Has(v)
  }

  class VirtualRanges {
    const lo: nat
    const half: nat
    var free: seq<Range>
    // The slots of the free array after its last entry, as far as they have been entries before.
    var stale: seq<Range>
    var used: seq<Range>
    ghost var reserved: seq<Range>

    ghost predicate Valid()
      reads this
    {
      && Spaced(free, 1) && Spaced(used, 0) && Guarded(used)
      && Accounted(lo, lo + half, free, used, reserved)
    }

    // What is left of that when pages may be in no list.
    ghost predicate Disjoint()
      reads this
    {
      Spaced(free, 1) && Spaced(used, 0) && Guarded(used) && Apart(free, used)
    }

    // The entire kernel half starts out free.
    constructor (highVpn: nat, halfPages: nat)
      requires halfPages > 0
      ensures Valid() && lo == highVpn && half == halfPages
      ensures free == [Range(highVpn, halfPages)] && stale == [] && used == [] && reserved == []
    {
      lo := highVpn;
      half := halfPages;
      free := [Range(highVpn, halfPages)];
      stale := [];
      used := [];
      reserved := [];
      new;
      ghost var hi := lo + half;
      forall v: nat ensures ExactlyOne(lo, hi, free, used, reserved, v) {
        CoversOne(free[0], v);
      }
    }

    // Cut a range out of the free entry that contains it.
    method Cut(vpn: nat, pages: nat, ghost k: nat)
      requires Valid() && k < |free| && pages > 0
      requires free[k].vpn <= vpn && vpn + pages <= free[k].End()
      modifies this
      ensures Valid() && used == old(used)
      ensures stale == CutStale(old(free), old(stale), k, vpn, pages)
      ensures forall v: nat :: Covers(reserved, v) <==> old(Covers(reserved, v)) || Range(vpn, pages).Has(v)
    {
      hide Spaced, Accounted, Leftover, Guarded, Covers, LowerBound;
      FindEntry(free, vpn, k);
      var idx := LowerBound(free, vpn);
      if !(idx < |free| && free[idx].vpn == vpn) {
        idx := idx - 1;
      }
      ghost var cut := Range(vpn, pages);
      CutStep(free, idx, vpn, pages);
      ContainedCovered(free, idx, cut);
      ghost var free' := free[..idx] + Leftover(free[idx], vpn, pages) + free[idx + 1..];
      ReserveAccounts(lo, lo + half, free, used, reserved, cut, free');
      CutEdits(free, idx, vpn, pages);
      var range := free[idx];
      if range.vpn == vpn && range.pages == pages {
        stale := AfterRemove(free, stale);
        free := free[..idx] + free[idx + 1..];
      } else if vpn > range.vpn && vpn + pages < range.End() {
        stale := AfterInsert(stale);
        free := free[..idx + 1] + [Range(vpn + pages, range.End() - vpn - pages)] + free[idx + 1..];
        free := free[idx := Range(range.vpn, vpn - range.vpn)];
      } else if vpn > range.vpn {
        free := free[idx := Range(range.vpn, vpn - range.vpn)];
      } else {
        free := free[idx := Range(vpn + pages, range.End() - vpn - pages)];
      }
      reserved := reserved + [cut];
    }

    // Reserve a range, clamped to the half.
    method MarkReserved(vpn0: nat, pages0: nat, ghost k: nat)
      requires Valid() && k < |free|
      requires var vpn := if vpn0 < lo then lo else vpn0;
               vpn < vpn0 + pages0 && free[k].vpn <= vpn && vpn0 + pages0 <= free[k].End()
      modifies this
      ensures Valid() && used == old(used)
      ensures var vpn := if vpn0 < lo then lo else vpn0; stale == CutStale(old(free), old(stale), k, vpn, vpn0 + pages0 - vpn)
      ensures forall v: nat :: Covers(reserved, v) <==> old(Covers(reserved, v)) || (lo <= v && vpn0 <= v < vpn0 + pages0)
    {
      hide Spaced, Accounted, Guarded, Covers;
      var vpn, pages: int := vpn0, pages0;
      EntryInHalf(lo, lo + half, free, used, reserved, k);
      if vpn < lo {
        pages := pages - (lo - vpn);
        vpn := lo;
      }
      if vpn + pages > lo + half * PAGE_SIZE {
        pages := lo + half * PAGE_SIZE - vpn;
      }
      Cut(vpn, pages, k);
    }

    // First fit for len bytes and two guard pages; None where the source panics.
    method AllocVaddr(len: nat) returns (r: Option<nat>, ghost u: Range)
      requires Valid() && len < SIZE_MOD
      modifies this
      ensures Valid() && reserved == old(reserved)
      ensures r.None? ==> free == old(free) && stale == old(stale) && used == old(used)
      ensures r.None? <==> forall i :: 0 <= i < |old(free)| ==> old(free)[i].pages < PagesWithGuards(len)
      ensures r.Some? ==>
        && u.pages == PagesWithGuards(len) && r.value == (u.vpn + 1) * PAGE_SIZE
        && (exists i :: TakenAt(old(free), old(stale), free, stale, u, i))
        && used == Inserted(old(used), u)
        && (forall v: nat :: u.Has(v) ==> old(Covers(free, v)))
        && (forall v: nat :: Covers(free, v) <==> old(Covers(free, v)) && !u.Has(v))
    {
      hide Spaced, Accounted, Covers, Leftover, LowerBound, Inserted;
      var pages := PagesWithGuards(len);
      var i := 0;
      while i < |free| && free[i].pages < pages
        invariant 0 <= i <= |free| && forall j :: 0 <= j < i ==> free[j].pages < pages
      {
        i := i + 1;
      }
      u := Range(0, pages);
      if i == |free| {
        return None, u;
      }
      var range := free[i];
      u := Range(range.vpn, pages);
      ghost var free0, stale0 := free, stale;
      CutStep(free, i, range.vpn, pages);
      ContainedCovered(free, i, u);
      NotUsed(lo, lo + half, free, used, reserved, u);
      InsertStep(used, u);
      InsertGuarded(used, u);
      ghost var free' := free[..i] + Leftover(range, range.vpn, pages) + free[i + 1..];
      MoveAccounts(lo, lo + half, free, used, reserved, free', Inserted(used, u), u);
      CutEdits(free, i, range.vpn, pages);
      used := Inserted(used, Range(range.vpn, pages));
      if free[i].pages > pages {
        free := free[i := Range(free[i].vpn + pages, free[i].pages - pages)];
      } else {
        stale := AfterRemove(free, stale);
        free := free[..i] + free[i + 1..];
      }
      assert TakenAt(free0, stale0, free, stale, u, i);
      return Some((range.vpn + 1) * PAGE_SIZE), u;
    }

    // Release a used range.  The right-merge tests read the entry after the insertion point even when
    // that lies past the end of the list, and edit it when they succeed; `stray` reports that.  The
    // range is returned if and only if they do not.  Earlier stray calls may have lost pages.
    method FreeVaddr(vaddr: nat, outside: Range, ghost k: nat) returns (stray: bool)
      requires Disjoint() && k < |used| && vaddr == (used[k].vpn + 1) * PAGE_SIZE
      modifies this
      ensures stray <==> LowerBound(old(free), old(used[k]).vpn) == |old(free)|
                         && old(used[k]).End() == Past(old(stale), outside).vpn
      ensures used == old(used)[..k] + old(used)[k + 1..] && reserved == old(reserved)
      ensures Returned(old(free), free, old(used[k])) <==> !stray
      ensures Disjoint() && (old(Valid()) ==> (Valid() <==> !stray))
      ensures stale == ReleaseStale(old(free), old(stale), old(used[k]), outside)
      ensures stray ==> free == if LeftAdjacent(old(free), old(used[k])) then old(free)[..|old(free)| - 1] else old(free)
      ensures stray ==> Shrunk(old(free), free)
    {
      hide Spaced, Accounted, Covers, Guarded, LowerBound, Joined, Returned, Apart;
      VpnOfVaddr(used[k].vpn);
      var vpn := vaddr / PAGE_SIZE - 1;
      FindUsed(used, k);
      var at := LowerBound(used, vpn);
      var range := used[at];
      RemoveStep(used, at);
      RemoveGuarded(used, at);
      UsedNotFree(free, used, at);
      ghost var idx := LowerBound(free, range.vpn);
      ghost var was, used' := free, used[..at] + used[at + 1..];
      JoinStep(free, range, idx);
      JoinReturns(free, range, idx);
      if Accounted(lo, lo + half, free, used, reserved) {
        ReturnAccounts(lo, lo + half, free, used, reserved, Joined(free, idx, range), used', range);
      }
      ReturnApart(free, used, Joined(free, idx, range), used', range);
      KeptApart(free, used, used');
      StrayLoses(free, range);
      used := used[..at] + used[at + 1..];
      stray := Merge(range, outside);
      if stray && Valid() && old(Valid()) {
        NotAccounted(lo, lo + half, was, old(used), reserved, at, free);
      }
    }

    // Its edits of the free list.
    method Merge(range: Range, outside: Range) returns (stray: bool)
      modifies this`free, this`stale
      ensures var idx := LowerBound(old(free), range.vpn);
        && (stray <==> idx == |old(free)| && range.End() == Past(old(stale), outside).vpn)
        && free == if !stray then Joined(old(free), idx, range)
                   else if LeftAdjacent(old(free), range) then old(free)[..|old(free)| - 1] else old(free)
      ensures stale == ReleaseStale(old(free), old(stale), range, outside)
    {
      hide LowerBound, Joined;
      var idx := LowerBound(free, range.vpn);
      JoinEdits(free, idx, range);
      var next := if idx < |free| then free[idx] else Past(stale, outside);
      stray := idx == |free| && range.End() == next.vpn;
      if idx > 0 && free[idx - 1].End() == range.vpn && range.End() == next.vpn {
        free := free[idx - 1 := Range(free[idx - 1].vpn, next.End() - free[idx - 1].vpn)];
        stale := AfterRemove(free, stale);
        free := if idx < |free| then free[..idx] + free[idx + 1..] else free[..idx - 1];
      } else if idx > 0 && free[idx - 1].End() == range.vpn {
        free := free[idx - 1 := Range(free[idx - 1].vpn, range.End() - free[idx - 1].vpn)];
      } else if range.End() == next.vpn {
        var joined := Range(range.vpn, next.pages + (next.vpn - range.vpn));
        if idx < |free| {
          free := free[idx := joined];
        } else if stale != [] {
          stale := stale[0 := joined];
        }
      } else {
        stale := AfterInsert(stale);
        free := free[..idx] + [range] + free[idx..];
      }
    }
  }

  lemma ReturnApart(free: seq<Range>, used: seq<Range>, free': seq<Range>, used': seq<Range>, r: Range)
    requires Apart(free, used)
    requires forall v: nat :: Covers(free', v) <==> Covers(free, v) || r.Has(v)
    requires forall v: nat :: Covers(used', v) <==> Covers(used, v) && !r.Has(v)
    ensures Apart(free', used')
  {
    hide Covers;
  }

  // Dropping entries keeps the lists apart, and the free list in normal form.
  lemma KeptApart(free: seq<Range>, used: seq<Range>, used': seq<Range>)
    requires Apart(free, used) && Spaced(free, 1) && forall v: nat :: Covers(used', v) ==> Covers(used, v)
    ensures Apart(free, used')
    ensures free != [] ==> Spaced(free[..|free| - 1], 1) && Apart(free[..|free| - 1], used')
  {
    hide Spaced, Covers;
    if free != [] {
      var n := |free| - 1;
      assert free == free[..n] + [free[n]];
      SpacedTwo(free[..n], [free[n]], 1);
      forall v: nat ensures Covers(free[..n], v) ==> Covers(free, v) {
        CoversConcat(free[..n], [free[n]], v);
      }
    }
  }

  lemma UsedNotFree(free: seq<Range>, used: seq<Range>, k: nat)
    requires Apart(free, used) && k < |used|
    ensures forall v: nat :: used[k].Has(v) ==> Covers(used, v) && !Covers(free, v)
  {
  }

  lemma AccountedApart(lo: nat, hi: nat, free: seq<Range>, used: seq<Range>, reserved: seq<Range>)
    requires Accounted(lo, hi, free, used, reserved)
    ensures Apart(free, used)
  {
    hide Covers;
    forall v: nat ensures !(Covers(free, v) && Covers(used, v)) {
      assert ExactlyOne(lo, hi, free, used, reserved, v);
    }
  }

  lemma JoinReturns(free: seq<Range>, r: Range, idx: nat)
    requires idx <= |free| && (idx > 0 ==> free[idx - 1].vpn <= r.vpn) && (idx < |free| ==> r.vpn <= free[idx].vpn)
    requires Spaced(Joined(free, idx, r), 1)
    requires forall v: nat :: Covers(Joined(free, idx, r), v) <==> Covers(free, v) || r.Has(v)
    ensures Returned(free, Joined(free, idx, r), r)
  {
  }

  // Neither the old list nor the list without its last entry has r returned to it.
  lemma StrayLoses(free: seq<Range>, r: Range)
    requires Spaced(free, 1) && r.pages > 0 && forall v: nat :: r.Has(v) ==> !Covers(free, v)
    ensures !Returned(free, free, r)
    ensures free != [] ==> !Returned(free, free[..|free| - 1], r)
  {
    hide Spaced;
    assert r.Has(r.vpn);
    if free != [] {
      LastUncovered(free);
      assert Covers(free, free[|free| - 1].vpn);
    }
  }

  lemma LastUncovered(free: seq<Range>)
    requires free != [] && Spaced(free, 1)
    ensures var last := free[|free| - 1]; last.Has(last.vpn) && !Covers(free[..|free| - 1], last.vpn)
  {
  }

  // With the range gone from the used list, the pages are accounted for only if it was returned.
  lemma NotAccounted(lo: nat, hi: nat, free: seq<Range>, used: seq<Range>, reserved: seq<Range>, k: nat, free': seq<Range>)
    requires Spaced(used, 0) && Accounted(lo, hi, free, used, reserved) && k < |used|
    requires Spaced(free', 1) && Accounted(lo, hi, free', used[..k] + used[k + 1..], reserved)
    ensures Returned(free, free', used[k])
  {
    hide Spaced, Covers;
    var rest := used[..k] + used[k + 1..];
    RemoveStep(used, k);
    NotFree(lo, hi, free, used, reserved, k);
    forall v: nat ensures Covers(free', v) <==> Covers(free, v) || used[k].Has(v) {
      assert ExactlyOne(lo, hi, free, used, reserved, v);
      assert ExactlyOne(lo, hi, free', rest, reserved, v);
    }
  }

  // The in-place edits of a release, as the joined list.
  lemma JoinEdits(free: seq<Range>, idx: nat, r: Range)
    requires idx <= |free| && (idx > 0 ==> free[idx - 1].vpn <= r.vpn)
    requires idx < |free| ==> r.vpn <= free[idx].vpn
    ensures var left := idx > 0 && free[idx - 1].End() == r.vpn;
            var right := idx < |free| && r.End() == free[idx].vpn;
            Joined(free, idx, r) ==
            if left && right then
              var merged := free[idx - 1 := Range(free[idx - 1].vpn, free[idx].End() - free[idx - 1].vpn)];
              merged[..idx] + merged[idx + 1..]
            else if left then free[idx - 1 := Range(free[idx - 1].vpn, r.End() - free[idx - 1].vpn)]
            else if right then free[idx := Range(r.vpn, free[idx].pages + (free[idx].vpn - r.vpn))]
            else free[..idx] + [r] + free[idx..]
  {
  }

  // An allocation that is not empty gets just enough whole pages between its guards.
  lemma PagesSuffice(len: nat)
    requires 0 < len < SIZE_MOD
    ensures var data := PagesWithGuards(len) - 2; (data - 1) * PAGE_SIZE < len <= data * PAGE_SIZE
  {
  }

  lemma RemoveGuarded(used: seq<Range>, idx: nat)
    requires Guarded(used) && idx < |used|
    ensures Guarded(used[..idx] + used[idx + 1..])
  {
  }

  lemma NotFree(lo: nat, hi: nat, free: seq<Range>, used: seq<Range>, reserved: seq<Range>, k: nat)
    requires Accounted(lo, hi, free, used, reserved) && k < |used|
    ensures forall v: nat :: used[k].Has(v) ==> Covers(used, v) && !Covers(free, v)
  {
    forall v: nat | used[k].Has(v) ensures Covers(used, v) && !Covers(free, v) {
      assert ExactlyOne(lo, hi, free, used, reserved, v);
    }
  }

  lemma FindUsed(used: seq<Range>, k: nat)
    requires Spaced(used, 0) && k < |used|
    ensures LowerBound(used, used[k].vpn) == k && used[k].pages > 0
  {
    SpacedAfter(used, 0, used[k].vpn);
  }

  // The top page of the half is free: every other range then has a free entry above it.
  lemma TopFree(lo: nat, hi: nat, free: seq<Range>, used: seq<Range>, reserved: seq<Range>, k: nat)
    requires Spaced(free, 1) && Spaced(used, 0) && Accounted(lo, hi, free, used, reserved) && k < |used|
    requires hi > 0 && Covers(free, hi - 1)
    ensures LowerBound(free, used[k].vpn) < |free|
  {
    hide Accounted, LowerBound;
    var i :| 0 <= i < |free| && free[i].Has(hi - 1);
    UsedInHalf(lo, hi, free, used, reserved, k);
    NotFree(lo, hi, free, used, reserved, k);
    SpacedAfter(free, 1, used[k].vpn);
    assert used[k].Has(used[k].vpn);
    assert !free[i].Has(used[k].vpn);
  }

  // Page v belongs to the whole and is in neither list.
  ghost predicate LostPage(whole: seq<Range>, free: seq<Range>, used: seq<Range>, v: nat) {
    Covers(whole, v) && !Covers(free, v) && !Covers(used, v)
  }

  // Releasing every allocation, in whatever order, restores the free list exactly, if and only if no
  // call is stray; and none is while the top page of the half is free.
  method ReleaseAll(a: VirtualRanges, order: seq<Range>, outside: seq<Range>, ghost free0: seq<Range>) returns (stray: bool)
    requires a.Valid() && multiset(order) == multiset(a.used) && |outside| == |order| && a.half > 0
    requires Spaced(free0, 1) && Accounted(a.lo, a.lo + a.half, free0, [], a.reserved)
    modifies a
    ensures a.used == [] && (a.free == free0 <==> !stray)
    ensures old(Covers(a.free, a.lo + a.half - 1)) ==> !stray
  {
    hide Spaced, Accounted, Guarded, Covers, LowerBound, Returned, Apart, Tracked, Shrunk;
    stray := false;
    ghost var hi, lost := a.lo + a.half, 0;
    AccountedApart(a.lo, hi, a.free, a.used, a.reserved);
    StartTracked(a.lo, hi, free0, a.free, a.used, a.reserved);
    for x := 0 to |order|
      invariant a.Disjoint() && a.reserved == old(a.reserved) && multiset(order[x..]) == multiset(a.used)
      invariant Tracked(a.lo, hi, free0, a.free, a.used, a.reserved, stray, lost)
      invariant old(Covers(a.free, hi - 1)) ==> !stray && Covers(a.free, hi - 1)
    {
      ghost var k := FindInMultiset(order, x, a.used);
      RemoveMultiset(a.used, k);
      ghost var free, used := a.free, a.used;
      var now := a.FreeVaddr((order[x].vpn + 1) * PAGE_SIZE, outside[x], k);
      lost := StepTracked(a.lo, hi, free0, free, used, a.reserved, stray, lost, k, a.free, now);
      stray := stray || now;
    }
    assert order[|order|..] == [] && |multiset(a.used)| == |a.used|;
    EndTracked(a.lo, hi, free0, a.free, a.reserved, stray, lost);
  }

  // After a stray call some page is lost; until then the pages are accounted for.
  ghost predicate Tracked(lo: nat, hi: nat, whole: seq<Range>, free: seq<Range>, used: seq<Range>, reserved: seq<Range>,
                          stray: bool, lost: nat) {
    Accounted(lo, hi, whole, [], reserved)
    && if stray then LostPage(whole, free, used, lost) else Accounted(lo, hi, free, used, reserved)
  }

  lemma StartTracked(lo: nat, hi: nat, whole: seq<Range>, free: seq<Range>, used: seq<Range>, reserved: seq<Range>)
    requires Accounted(lo, hi, whole, [], reserved) && Accounted(lo, hi, free, used, reserved)
    ensures Tracked(lo, hi, whole, free, used, reserved, false, 0)
  {
  }

  lemma StepTracked(lo: nat, hi: nat, whole: seq<Range>, free: seq<Range>, used: seq<Range>, reserved: seq<Range>,
                    stray: bool, lost: nat, k: nat, free': seq<Range>, now: bool)
    returns (lost': nat)
    requires Tracked(lo, hi, whole, free, used, reserved, stray, lost)
    requires Spaced(free, 1) && Spaced(used, 0) && k < |used|
    requires if now then Shrunk(free, free') else Returned(free, free', used[k])
    requires now ==> LowerBound(free, used[k].vpn) == |free|
    ensures Tracked(lo, hi, whole, free', used[..k] + used[k + 1..], reserved, stray || now, lost')
    ensures hi > 0 && !stray && Covers(free, hi - 1) ==> !now && Covers(free', hi - 1)
  {
    hide Spaced, Accounted, Covers, LowerBound, Returned, Shrunk, LostPage;
    lost' := lost;
    if stray {
      StaysLost(whole, free, used, k, free', lost);
    } else if now {
      lost' := used[k].vpn;
      BecomesLost(lo, hi, whole, free, used, reserved, k, free');
    } else {
      StaysAccounted(lo, hi, free, used, reserved, k, free');
    }
    if hi > 0 && !stray && Covers(free, hi - 1) {
      TopFree(lo, hi, free, used, reserved, k);
      ReturnedCovers(free, free', used[k], hi - 1);
    }
  }

  lemma StaysAccounted(lo: nat, hi: nat, free: seq<Range>, used: seq<Range>, reserved: seq<Range>, k: nat, free': seq<Range>)
    requires Accounted(lo, hi, free, used, reserved) && Spaced(used, 0) && k < |used| && Returned(free, free', used[k])
    ensures Accounted(lo, hi, free', used[..k] + used[k + 1..], reserved)
  {
    hide Spaced, Accounted, Covers;
    RemoveStep(used, k);
    NotFree(lo, hi, free, used, reserved, k);
    ReturnAccounts(lo, hi, free, used, reserved, free', used[..k] + used[k + 1..], used[k]);
  }

  lemma EndTracked(lo: nat, hi: nat, whole: seq<Range>, free: seq<Range>, reserved: seq<Range>, stray: bool, lost: nat)
    requires Tracked(lo, hi, whole, free, [], reserved, stray, lost) && Spaced(whole, 1) && Spaced(free, 1)
    ensures free == whole <==> !stray
  {
    hide Spaced, Accounted, Covers;
    if !stray {
      FreeDetermined(lo, hi, free, [], reserved, whole, [], reserved);
    }
  }

  // The free list after a stray call: at most without its last entry.
  ghost predicate Shrunk(was: seq<Range>, now: seq<Range>) {
    now == was || (was != [] && now == was[..|was| - 1])
  }

  lemma ShrunkCovers(was: seq<Range>, now: seq<Range>, v: nat)
    requires Shrunk(was, now) && Covers(now, v)
    ensures Covers(was, v)
  {
  }

  // No later call brings a lost page back.
  lemma StaysLost(whole: seq<Range>, free: seq<Range>, used: seq<Range>, k: nat, free': seq<Range>, v: nat)
    requires LostPage(whole, free, used, v) && k < |used| && Spaced(used, 0)
    requires Returned(free, free', used[k]) || Shrunk(free, free')
    ensures LostPage(whole, free', used[..k] + used[k + 1..], v)
  {
    hide Spaced, Covers, Shrunk;
    RemoveStep(used, k);
    assert !used[k].Has(v) by { NotCovered(used, k, v); }
    if Shrunk(free, free') && Covers(free', v) {
      ShrunkCovers(free, free', v);
    }
  }

  lemma NotCovered(l: seq<Range>, k: nat, v: nat)
    requires k < |l| && !Covers(l, v)
    ensures !l[k].Has(v)
  {
  }

  // A stray call loses the first page of its range.
  lemma BecomesLost(lo: nat, hi: nat, whole: seq<Range>, free: seq<Range>, used: seq<Range>, reserved: seq<Range>,
                    k: nat, free': seq<Range>)
    requires Accounted(lo, hi, whole, [], reserved) && Accounted(lo, hi, free, used, reserved)
    requires Spaced(used, 0) && k < |used| && Shrunk(free, free')
    ensures LostPage(whole, free', used[..k] + used[k + 1..], used[k].vpn)
  {
    hide Covers, Shrunk;
    var v := used[k].vpn;
    RemoveStep(used, k);
    NotFree(lo, hi, free, used, reserved, k);
    assert used[k].Has(v);
    assert ExactlyOne(lo, hi, free, used, reserved, v);
    assert ExactlyOne(lo, hi, whole, [], reserved, v);
    CoversNone(v);
    if Covers(free', v) {
      ShrunkCovers(free, free', v);
    }
  }

  lemma ReturnedCovers(was: seq<Range>, now: seq<Range>, r: Range, v: nat)
    requires Returned(was, now, r) && Covers(was, v)
    ensures Covers(now, v)
  {
    hide Covers, Spaced;
  }

  // One allocation from the only free entry.
  method TakeFromOne(a: VirtualRanges, len: nat, ghost e: Range)
    requires a.Valid() && a.free == [e] && |a.used| <= 1 && (a.used != [] ==> a.used[0].vpn < e.vpn)
    requires len < SIZE_MOD && PagesWithGuards(len) <= e.pages
    modifies a
    ensures a.Valid() && a.reserved == old(a.reserved)
    ensures var n := PagesWithGuards(len);
      && a.used == old(a.used) + [Range(e.vpn, n)]
      && a.free == (if e.pages > n then [Range(e.vpn + n, e.pages - n)] else [])
      && a.stale == if e.pages > n then old(a.stale) else [e] + old(a.stale)
  {
    hide Spaced, Accounted, Guarded, Covers, PagesWithGuards, TakenAt, LowerBound, Inserted;
    ghost var f := a.free;
    assert f[0].pages >= PagesWithGuards(len);
    ghost var used, stale := a.used, a.stale;
    var r, u := a.AllocVaddr(len);
    assert r.Some?;
    OnlyEntry(e, stale, a.free, a.stale, u);
    Placed(used, u);
  }

  // The run that loses a range: two allocations use up the only free entry, whose old value stays in
  // the array; releasing the first one is then merged with that.
  method LoseRange(highVpn: nat, len1: nat, len2: nat, outside: Range) returns (a: VirtualRanges)
    requires 0 < len1 < SIZE_MOD && 0 < len2 < SIZE_MOD
    ensures fresh(a) && a.lo == highVpn && a.half == PagesWithGuards(len1) + PagesWithGuards(len2)
    ensures a.free == [] && a.reserved == [] && a.used == [Range(highVpn + PagesWithGuards(len1), PagesWithGuards(len2))]
    ensures !a.Valid()
  {
    hide Spaced, Accounted, Guarded, Covers, Returned, PagesWithGuards, LowerBound;
    var p, q := PagesWithGuards(len1), PagesWithGuards(len2);
    AtLeastThree(len1);
    AtLeastThree(len2);
    a := new VirtualRanges(highVpn, p + q);
    TakeFromOne(a, len1, Range(highVpn, p + q));
    TakeFromOne(a, len2, Range(highVpn + p, q));
    NothingFree(highVpn);
    AccountedApart(a.lo, a.lo + a.half, a.free, a.used, a.reserved);
    assert a.used == [Range(highVpn, p), Range(highVpn + p, q)] && a.stale == [Range(highVpn + p, q)];
    var stray := a.FreeVaddr((highVpn + 1) * PAGE_SIZE, outside, 0);
  }

  lemma AtLeastThree(len: nat)
    ensures PagesWithGuards(len) >= 3
  {
  }

  // Taking from a list of one entry.
  lemma OnlyEntry(e: Range, wasStale: seq<Range>, free: seq<Range>, stale: seq<Range>, u: Range)
    requires exists i :: TakenAt([e], wasStale, free, stale, u, i)
    ensures u.vpn == e.vpn && u.pages <= e.pages
    ensures free == if e.pages > u.pages then [Range(e.vpn + u.pages, e.pages - u.pages)] else []
    ensures stale == if e.pages > u.pages then wasStale else [e] + wasStale
  {
  }

  lemma Placed(used: seq<Range>, r: Range)
    requires |used| <= 1 && (used != [] ==> used[0].vpn < r.vpn)
    ensures Inserted(used, r) == used + [r]
  {
  }

  lemma NothingFree(vpn: nat)
    ensures LowerBound([], vpn) == 0
  {
  }

  lemma FindInMultiset(order: seq<Range>, x: nat, used: seq<Range>) returns (k: nat)
    requires x < |order| && multiset(order[x..]) == multiset(used)
    ensures k < |used| && used[k] == order[x]
    ensures multiset(order[x + 1..]) == multiset(used) - multiset{order[x]}
  {
    assert order[x..] == [order[x]] + order[x + 1..];
    assert order[x] in multiset(used);
    k :| 0 <= k < |used| && used[k] == order[x];
  }

  lemma RemoveMultiset(l: seq<Range>, k: nat)
    requires k < |l|
    ensures multiset(l[..k] + l[k + 1..]) == multiset(l) - multiset{l[k]}
  {
    assert l == l[..k] + [l[k]] + l[k + 1..];
  }

  lemma UsedInHalf(lo: nat, hi: nat, free: seq<Range>, used: seq<Range>, reserved: seq<Range>, k: nat)
    requires Spaced(used, 0) && Accounted(lo, hi, free, used, reserved) && k < |used|
    ensures lo <= used[k].vpn && used[k].End() <= hi
  {
    var last := used[k].End() - 1;
    assert used[k].Has(used[k].vpn) && used[k].Has(last);
    assert ExactlyOne(lo, hi, free, used, reserved, used[k].vpn);
    assert ExactlyOne(lo, hi, free, used, reserved, last);
  }

  lemma InsertGuarded(used: seq<Range>, r: Range)
    requires Guarded(used) && r.pages >= 3
    ensures Guarded(Inserted(used, r))
  {
  }

  // The in-place edits of the entry array, as replacements of entry idx.
  lemma CutEdits(free: seq<Range>, idx: nat, vpn: nat, pages: nat)
    requires idx < |free| && free[idx].vpn <= vpn && vpn + pages <= free[idx].End()
    ensures var range := free[idx];
            var free' := free[..idx] + Leftover(range, vpn, pages) + free[idx + 1..];
            var left, right := Range(range.vpn, vpn - range.vpn), Range(vpn + pages, range.End() - vpn - pages);
            free' ==
            if range.vpn == vpn && range.pages == pages then free[..idx] + free[idx + 1..]
            else if vpn > range.vpn && vpn + pages < range.End() then
              (free[..idx + 1] + [right] + free[idx + 1..])[idx := left]
            else if vpn > range.vpn then free[idx := left]
            else free[idx := right]
  {
  }

  lemma NotUsed(lo: nat, hi: nat, free: seq<Range>, used: seq<Range>, reserved: seq<Range>, r: Range)
    requires Accounted(lo, hi, free, used, reserved) && forall v: nat :: r.Has(v) ==> Covers(free, v)
    ensures forall v: nat :: r.Has(v) ==> !Covers(used, v)
  {
    forall v: nat | r.Has(v) ensures !Covers(used, v) {
      assert ExactlyOne(lo, hi, free, used, reserved, v);
    }
  }
}
