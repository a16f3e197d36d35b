// Inode lifetimes of the RAM filesystem (vfs_ramfs.c): link counts against names and open handles.
module Ramfs {
  type Name = string

  datatype Entry = Entry(name: Name, inode: nat)

  datatype Inode = Inode(isDir: bool, links: nat, entries: seq<Entry>)

  datatype Result<T> = Ok(value: T) | Exists | NoSpace | NotFound | Param | NotEmpty

  const ROOT := 1
  const FIRST := 2
  const LIST_LEN := 32

  predicate IsDot(name: Name) { name == "." || name == ".." }

  // ---------------------------------------------------------------- counting references

  // Non-dot entries that name inode i.
  function Names(es: seq<Entry>, i: nat): nat {
    if es == [] then 0
    else Names(es[..|es| - 1], i) + if es[|es| - 1].inode == i && !IsDot(es[|es| - 1].name) then 1 else 0
  }

  // Those in directory slot d, if it is in use.
  function NamesIn(inodes: seq<Inode>, usage: seq<bool>, d: nat, i: nat): nat
    requires d < |inodes| == |usage|
  {
    if usage[d] then Names(inodes[d].entries, i) else 0
  }

  // Those in the first n directory slots.
  function NamesBelow(inodes: seq<Inode>, usage: seq<bool>, n: nat, i: nat): nat
    requires n <= |inodes| == |usage|
  {
    if n == 0 then 0 else NamesBelow(inodes, usage, n - 1, i) + NamesIn(inodes, usage, n - 1, i)
  }

  ghost function HandlesOn(handles: map<nat, nat>, i: nat): set<nat> { set h | h in handles && handles[h] == i }

  // Everything that may lead to inode i.
  ghost function Refs(inodes: seq<Inode>, usage: seq<bool>, handles: map<nat, nat>, i: nat): nat
    requires |inodes| == |usage|
  {
    NamesBelow(inodes, usage, |inodes|, i) + |HandlesOn(handles, i)| + if i == ROOT then 1 else 0
  }

  lemma {:induction false} NamesConcat(a: seq<Entry>, b: seq<Entry>, i: nat)
    ensures Names(a + b, i) == Names(a, i) + Names(b, i)
    decreases |b|
  {
    if b == [] {
      assert a + b == a;
    } else {
      NamesConcat(a, b[..|b| - 1], i);
      assert (a + b)[..|a + b| - 1] == a + b[..|b| - 1];
    }
  }

  function Counts(e: Entry, i: nat): nat { if e.inode == i && !IsDot(e.name) then 1 else 0 }

  lemma NamesOne(e: Entry, i: nat)
    ensures Names([e], i) == Counts(e, i)
  {
    assert [e][..0] == [];
  }

  lemma NamesAppend(es: seq<Entry>, e: Entry, i: nat)
    ensures Names(es + [e], i) == Names(es, i) + Counts(e, i)
  {
    NamesConcat(es, [e], i);
    NamesOne(e, i);
  }

  function Removed(es: seq<Entry>, k: nat): seq<Entry>
    requires k < |es|
  {
    es[..k] + es[k + 1..]
  }

  lemma NamesRemove(es: seq<Entry>, k: nat, i: nat)
    requires k < |es|
    ensures Names(es, i) == Names(Removed(es, k), i) + Counts(es[k], i)
  {
    assert es == es[..k] + ([es[k]] + es[k + 1..]);
    NamesConcat(es[..k], [es[k]] + es[k + 1..], i);
    NamesConcat([es[k]], es[k + 1..], i);
    NamesConcat(es[..k], es[k + 1..], i);
    NamesOne(es[k], i);
  }

  lemma {:induction false} NamesOnlyDots(es: seq<Entry>, i: nat)
    requires forall k :: 0 <= k < |es| ==> IsDot(es[k].name)
    ensures Names(es, i) == 0
  {
    if es != [] {
      NamesOnlyDots(es[..|es| - 1], i);
    }
  }

  // Changing one slot changes the total by that slot's part.
  lemma {:induction false} BelowUpdate(inodes: seq<Inode>, usage: seq<bool>, inodes': seq<Inode>, usage': seq<bool>, n: nat, d: nat, i: nat)
    requires |inodes| == |usage| == |inodes'| == |usage'| && n <= |inodes| && d < |inodes|
    requires forall k :: 0 <= k < |inodes| && k != d ==> NamesIn(inodes', usage', k, i) == NamesIn(inodes, usage, k, i)
    ensures NamesBelow(inodes', usage', n, i) ==
      NamesBelow(inodes, usage, n, i) + if d < n then NamesIn(inodes', usage', d, i) - NamesIn(inodes, usage, d, i) else 0
    decreases n
  {
    hide NamesIn;
    if n > 0 {
      BelowUpdate(inodes, usage, inodes', usage', n - 1, d, i);
    }
  }

  // A slot in use is part of the total.
  lemma {:induction false} BelowAtLeast(inodes: seq<Inode>, usage: seq<bool>, n: nat, d: nat, i: nat)
    requires d < n <= |inodes| == |usage|
    ensures NamesBelow(inodes, usage, n, i) >= NamesIn(inodes, usage, d, i)
    decreases n
  {
    hide NamesIn;
    if d < n - 1 {
      BelowAtLeast(inodes, usage, n - 1, d, i);
    }
  }

  lemma {:induction false} NamesAtLeast(es: seq<Entry>, k: nat, i: nat)
    requires k < |es| && Counts(es[k], i) == 1
    ensures Names(es, i) >= 1
  {
    NamesRemove(es, k, i);
  }

  lemma HandleAdded(handles: map<nat, nat>, h: nat, t: nat, i: nat)
    requires h !in handles
    ensures |HandlesOn(handles[h := t], i)| == |HandlesOn(handles, i)| + if t == i then 1 else 0
  {
    var n := handles[h := t];
    if t == i {
      assert HandlesOn(n, i) == HandlesOn(handles, i) + {h};
    } else {
      assert HandlesOn(n, i) == HandlesOn(handles, i);
    }
  }

  lemma HandleRemoved(handles: map<nat, nat>, h: nat, i: nat)
    requires h in handles
    ensures |HandlesOn(handles, i)| == |HandlesOn(handles - {h}, i)| + if handles[h] == i then 1 else 0
  {
    var n := handles - {h};
    if handles[h] == i {
      assert HandlesOn(handles, i) == HandlesOn(n, i) + {h};
    } else {
      assert HandlesOn(handles, i) == HandlesOn(n, i);
    }
  }

  // ---------------------------------------------------------------- the invariant

  ghost predicate EntriesOk(node: Inode, n: nat) {
    && (!node.isDir ==> node.entries == [])
    && (forall k :: 0 <= k < |node.entries| ==> node.entries[k].inode < n)
    && (forall j, k :: 0 <= j < k < |node.entries| ==> node.entries[j].name != node.entries[k].name)
  }

  // A slot is in use exactly while its link count is positive, and the count covers every reference.
  ghost predicate SlotOk(inodes: seq<Inode>, usage: seq<bool>, handles: map<nat, nat>, i: nat)
    requires |inodes| == |usage| && i < |inodes|
  {
    && (usage[i] <==> inodes[i].links > 0)
    && Refs(inodes, usage, handles, i) <= inodes[i].links
    && (usage[i] ==> EntriesOk(inodes[i], |inodes|))
  }

  ghost predicate Inv(inodes: seq<Inode>, usage: seq<bool>, handles: map<nat, nat>) {
    && |inodes| == |usage| && |inodes| > ROOT && usage[ROOT]
    && (forall h :: h in handles ==> handles[h] < |inodes|)
    && (forall i :: 0 <= i < |inodes| ==> SlotOk(inodes, usage, handles, i))
  }

  // A name in a live directory leads to one inode.
  lemma UniqueName(inodes: seq<Inode>, usage: seq<bool>, handles: map<nat, nat>, d: nat, k: nat)
    requires Inv(inodes, usage, handles) && d < |inodes| && usage[d] && k < |inodes[d].entries|
    ensures var es := inodes[d].entries; forall i :: Entry(es[k].name, i) in es ==> i == es[k].inode
  {
    hide Refs;
    assert SlotOk(inodes, usage, handles, d);
  }

  // Whatever a name or a handle leads to is in use.
  lemma NamedInUse(inodes: seq<Inode>, usage: seq<bool>, handles: map<nat, nat>, d: nat, k: nat)
    requires Inv(inodes, usage, handles) && d < |inodes| && usage[d] && k < |inodes[d].entries| && !IsDot(inodes[d].entries[k].name)
    ensures inodes[d].entries[k].inode < |inodes| && usage[inodes[d].entries[k].inode]
  {
    assert SlotOk(inodes, usage, handles, d);
    var i := inodes[d].entries[k].inode;
    NamesAtLeast(inodes[d].entries, k, i);
    BelowAtLeast(inodes, usage, |inodes|, d, i);
    assert SlotOk(inodes, usage, handles, i);
  }

  lemma HandleInUse(inodes: seq<Inode>, usage: seq<bool>, handles: map<nat, nat>, h: nat)
    requires Inv(inodes, usage, handles) && h in handles
    ensures handles[h] < |inodes| && usage[handles[h]]
  {
    var i := handles[h];
    assert SlotOk(inodes, usage, handles, i);
    assert h in HandlesOn(handles, i);
  }

  // A free slot has no name and no handle.
  lemma FreeUnreachable(inodes: seq<Inode>, usage: seq<bool>, handles: map<nat, nat>, i: nat)
    requires Inv(inodes, usage, handles) && i < |inodes| && !usage[i]
    ensures Refs(inodes, usage, handles, i) == 0 && i != ROOT
    ensures forall h :: h in handles ==> handles[h] != i
    ensures forall d, k :: 0 <= d < |inodes| && usage[d] && 0 <= k < |inodes[d].entries| && !IsDot(inodes[d].entries[k].name) ==>
              inodes[d].entries[k].inode != i
  {
    hide Refs, Names, IsDot;
    assert SlotOk(inodes, usage, handles, i);
    forall h | h in handles ensures handles[h] != i {
      HandleInUse(inodes, usage, handles, h);
    }
    forall d, k | 0 <= d < |inodes| && usage[d] && 0 <= k < |inodes[d].entries| && !IsDot(inodes[d].entries[k].name)
      ensures inodes[d].entries[k].inode != i
    {
      NamedInUse(inodes, usage, handles, d, k);
    }
  }

  // ---------------------------------------------------------------- steps

  // pop_inode_refcount.
  function Popped(node: Inode): Inode
    requires node.links > 0
  {
    node.(links := node.links - 1)
  }

  // Opening counts a link.  It keeps the invariant if and only if the inode found is in use.
  lemma OpenStep(inodes: seq<Inode>, usage: seq<bool>, handles: map<nat, nat>, i: nat, h: nat)
    requires Inv(inodes, usage, handles) && i < |inodes| && h !in handles
    ensures Inv(inodes[i := inodes[i].(links := inodes[i].links + 1)], usage, handles[h := i]) <==> usage[i]
  {
    hide Names;
    var n, hs := inodes[i := inodes[i].(links := inodes[i].links + 1)], handles[h := i];
    if usage[i] {
      forall j | 0 <= j < |n| ensures SlotOk(n, usage, hs, j) {
        assert SlotOk(inodes, usage, handles, j);
        BelowUpdate(inodes, usage, n, usage, |n|, i, j);
        HandleAdded(handles, h, i, j);
      }
    } else {
      assert SlotOk(inodes, usage, handles, i);
      assert !SlotOk(n, usage, hs, i);
    }
  }

  lemma CloseStep(inodes: seq<Inode>, usage: seq<bool>, handles: map<nat, nat>, h: nat)
    requires Inv(inodes, usage, handles) && h in handles
    ensures handles[h] < |inodes| && inodes[handles[h]].links > 0
    ensures var i := handles[h];
      Inv(inodes[i := Popped(inodes[i])], usage[i := inodes[i].links > 1], handles - {h})
  {
    hide Names;
    var i := handles[h];
    HandleInUse(inodes, usage, handles, h);
    assert SlotOk(inodes, usage, handles, i);
    var n, u, hs := inodes[i := Popped(inodes[i])], usage[i := inodes[i].links > 1], handles - {h};
    forall j | 0 <= j < |n| ensures SlotOk(n, u, hs, j) {
      assert SlotOk(inodes, usage, handles, j);
      BelowUpdate(inodes, usage, n, u, |n|, i, j);
      HandleRemoved(handles, h, j);
    }
    assert h in HandlesOn(handles, i);
    assert SlotOk(inodes, usage, handles, ROOT);
  }

  function DotEntries(i: nat, d: nat): seq<Entry> { [Entry(".", i), Entry("..", d)] }

  function NewInode(isDir: bool, i: nat, d: nat): Inode {
    Inode(isDir, 1, if isDir then DotEntries(i, d) else [])
  }

  lemma CreateStep(inodes: seq<Inode>, usage: seq<bool>, handles: map<nat, nat>, d: nat, name: Name, i: nat, isDir: bool)
    requires Inv(inodes, usage, handles) && d < |inodes| && i < |inodes| && usage[d] && !usage[i] && inodes[d].isDir
    requires forall k :: 0 <= k < |inodes[d].entries| ==> inodes[d].entries[k].name != name
    ensures var n := inodes[i := NewInode(isDir, i, d)];
      d != i && Inv(n[d := n[d].(entries := n[d].entries + [Entry(name, i)])], usage[i := true], handles)
  {
    hide Names, IsDot;
    var n, u, e := inodes[i := NewInode(isDir, i, d)], usage[i := true], Entry(name, i);
    var m := n[d := n[d].(entries := n[d].entries + [e])];
    assert SlotOk(inodes, usage, handles, d) && SlotOk(inodes, usage, handles, i);
    forall j | 0 <= j < |m| ensures SlotOk(m, u, handles, j) {
      assert SlotOk(inodes, usage, handles, j);
      DotNames(NewInode(isDir, i, d), i, d, j);
      BelowUpdate(inodes, usage, n, u, |n|, i, j);
      BelowUpdate(n, u, m, u, |n|, d, j);
      NamesAppend(n[d].entries, e, j);
    }
  }

  lemma DotNames(node: Inode, i: nat, d: nat, j: nat)
    requires node.entries == [] || node.entries == DotEntries(i, d)
    ensures Names(node.entries, j) == 0
  {
    NamesOnlyDots(node.entries, j);
  }

  // Removing a name gives its link back; a directory must hold only its dot entries.
  lemma UnlinkStep(inodes: seq<Inode>, usage: seq<bool>, handles: map<nat, nat>, d: nat, k: nat)
    requires Inv(inodes, usage, handles) && d < |inodes| && usage[d] && inodes[d].isDir && k < |inodes[d].entries|
    requires !IsDot(inodes[d].entries[k].name) && inodes[d].entries[k].inode < |inodes|
    requires var i := inodes[d].entries[k].inode;
      inodes[i].isDir ==> forall x :: 0 <= x < |inodes[i].entries| ==> IsDot(inodes[i].entries[x].name)
    ensures var i := inodes[d].entries[k].inode; i != d && usage[i] && inodes[i].links > 0
    ensures var i := inodes[d].entries[k].inode; var n := inodes[i := Popped(inodes[i])];
      Inv(n[d := n[d].(entries := Removed(n[d].entries, k))], usage[i := inodes[i].links > 1], handles)
  {
    hide Names, EntriesOk, Removed, IsDot, Popped, Refs;
    var i := inodes[d].entries[k].inode;
    NamedInUse(inodes, usage, handles, d, k);
    assert SlotOk(inodes, usage, handles, d) && SlotOk(inodes, usage, handles, i);
    FileHasNone(inodes[i], |inodes|);
    PoppedOk(inodes[i], |inodes|);
    RemovedOk(inodes[d], k, |inodes|);
    var n, u := inodes[i := Popped(inodes[i])], usage[i := inodes[i].links > 1];
    var m := n[d := n[d].(entries := Removed(n[d].entries, k))];
    UnlinkRoot(inodes, usage, handles, d, k);
    forall j | 0 <= j < |m| ensures SlotOk(m, u, handles, j) {
      assert SlotOk(inodes, usage, handles, j);
      UnlinkRefs(inodes, usage, handles, d, k, u, j);
    }
  }

  lemma UnlinkRefs(inodes: seq<Inode>, usage: seq<bool>, handles: map<nat, nat>, d: nat, k: nat, u: seq<bool>, j: nat)
    requires |inodes| == |usage| && d < |inodes| && usage[d] && k < |inodes[d].entries| && inodes[d].entries[k].inode < |inodes|
    requires var i := inodes[d].entries[k].inode;
      && i != d && inodes[i].links > 0 && u == usage[i := inodes[i].links > 1]
      && forall x :: 0 <= x < |inodes[i].entries| ==> IsDot(inodes[i].entries[x].name)
    ensures var i := inodes[d].entries[k].inode; var n := inodes[i := Popped(inodes[i])];
      Refs(n[d := n[d].(entries := Removed(n[d].entries, k))], u, handles, j) == Refs(inodes, usage, handles, j) - Counts(inodes[d].entries[k], j)
  {
    hide Names, Removed, IsDot;
    var i := inodes[d].entries[k].inode;
    var n := inodes[i := Popped(inodes[i])];
    var m := n[d := n[d].(entries := Removed(n[d].entries, k))];
    NamesOnlyDots(inodes[i].entries, j);
    BelowUpdate(inodes, usage, n, u, |n|, i, j);
    BelowUpdate(n, u, m, u, |n|, d, j);
    NamesRemove(n[d].entries, k, j);
  }

  lemma FileHasNone(node: Inode, n: nat)
    requires EntriesOk(node, n)
    ensures !node.isDir ==> node.entries == []
  {
  }

  lemma PoppedOk(node: Inode, n: nat)
    requires EntriesOk(node, n) && node.links > 0
    ensures EntriesOk(Popped(node), n) && Popped(node).entries == node.entries && Popped(node).links == node.links - 1
  {
  }

  lemma RemovedOk(node: Inode, k: nat, n: nat)
    requires EntriesOk(node, n) && k < |node.entries|
    ensures EntriesOk(node.(entries := Removed(node.entries, k)), n)
  {
  }

  lemma UnlinkRoot(inodes: seq<Inode>, usage: seq<bool>, handles: map<nat, nat>, d: nat, k: nat)
    requires Inv(inodes, usage, handles) && d < |inodes| && usage[d] && k < |inodes[d].entries| && !IsDot(inodes[d].entries[k].name)
    ensures inodes[d].entries[k].inode == ROOT ==> inodes[ROOT].links > 1
  {
    if inodes[d].entries[k].inode == ROOT {
      NamesAtLeast(inodes[d].entries, k, ROOT);
      BelowAtLeast(inodes, usage, |inodes|, d, ROOT);
      assert SlotOk(inodes, usage, handles, ROOT);
    }
  }

  // ---------------------------------------------------------------- the filesystem

  // find_dirent: the entry of that name, or the length.
  method FindDirent(es: seq<Entry>, name: Name) returns (k: nat)
    ensures k <= |es| && (k < |es| ==> es[k].name == name)
    ensures forall j :: 0 <= j < k ==> es[j].name != name
  {
    k := 0;
    while k < |es| && es[k].name != name
      invariant k <= |es| && forall j :: 0 <= j < k ==> es[j].name != name
    {
      k := k + 1;
    }
  }

  method IsDirEmpty(es: seq<Entry>) returns (empty: bool)
    ensures empty <==> forall j :: 0 <= j < |es| ==> IsDot(es[j].name)
  {
    var k := 0;
    while k < |es|
      invariant k <= |es| && forall j :: 0 <= j < k ==> IsDot(es[j].name)
    {
      if !IsDot(es[k].name) {
        return false;
      }
      k := k + 1;
    }
    return true;
  }

  // find_inode: the first free slot.
  method FindInode(usage: seq<bool>) returns (i: nat)
    ensures i < |usage| ==> FIRST <= i && !usage[i]
    ensures forall j :: FIRST <= j < i && j < |usage| ==> usage[j]
  {
    i := FIRST;
    while i < |usage| && usage[i]
      invariant FIRST <= i && forall j :: FIRST <= j < i && j < |usage| ==> usage[j]
    {
      i := i + 1;
    }
  }

  // The entry k of directory d is gone, and with it one link of the inode it named.
  predicate Unlinked(was: seq<Inode>, wasUsage: seq<bool>, now: seq<Inode>, usage: seq<bool>, d: nat, k: nat, i: nat) {
    && d < |was| && k < |was[d].entries| && was[d].entries[k].inode == i && i < |was| == |wasUsage| && was[i].links > 0
    && usage == wasUsage[i := was[i].links > 1]
    && var n := was[i := Popped(was[i])];
    now == n[d := n[d].(entries := Removed(was[d].entries, k))]
  }

  predicate HasName(es: seq<Entry>, name: Name) { exists k :: 0 <= k < |es| && es[k].name == name }

  // A directory with entries besides the dots.
  predicate HasFiles(inodes: seq<Inode>, i: nat) {
    i < |inodes| && inodes[i].isDir && exists j :: 0 <= j < |inodes[i].entries| && !IsDot(inodes[i].entries[j].name)
  }

  class Filesystem {
    var inodes: seq<Inode>
    var usage: seq<bool>
    var handles: map<nat, nat>

    ghost predicate Valid()
      reads this
    {
      Inv(inodes, usage, handles)
    }

    // h is open on a directory.
    ghost predicate OnDir(h: nat)
      reads this
    {
      h in handles && handles[h] < |inodes| && inodes[handles[h]].isDir
    }

    // vfs_ramfs_mount, with all usage flags cleared.
    constructor ()
      ensures Valid() && |inodes| == LIST_LEN && handles == map[] && usage == seq(LIST_LEN, i => i == ROOT)
      ensures inodes[ROOT] == Inode(true, 1, DotEntries(ROOT, ROOT))
    {
      hide Names;
      inodes := seq(LIST_LEN, i => if i == ROOT then Inode(true, 1, DotEntries(ROOT, ROOT)) else Inode(false, 0, []));
      usage := seq(LIST_LEN, i => i == ROOT);
      handles := map[];
      new;
      forall i | 0 <= i < |inodes| ensures SlotOk(inodes, usage, handles, i) {
        MountedNames(inodes, usage, |inodes|, i);
        assert HandlesOn(handles, i) == {};
      }
    }

    // create_file: a new name for a slot that no name and no handle leads to.
    method Create(h: nat, name: Name, isDir: bool) returns (r: Result<nat>)
      requires Valid() && OnDir(h)
      modifies this
      ensures Valid() && handles == old(handles) && |inodes| == |old(inodes)|
      ensures !r.Ok? ==> inodes == old(inodes) && usage == old(usage)
      ensures r.Exists? <==> HasName(old(inodes)[handles[h]].entries, name)
      ensures r.NoSpace? ==> forall j :: FIRST <= j < |usage| ==> usage[j]
      ensures r.Ok? || r.Exists? || r.NoSpace?
      ensures r.Ok? ==>
        var i, d := r.value, handles[h];
        && FIRST <= i < |inodes| && !old(usage[i]) && Refs(old(inodes), old(usage), handles, i) == 0
        && usage == old(usage)[i := true]
        && var n := old(inodes)[i := NewInode(isDir, i, d)];
        inodes == n[d := n[d].(entries := n[d].entries + [Entry(name, i)])]
      ensures r.Ok? ==>
        var node := inodes[r.value];
        && node.isDir == isDir && node.links == 1
        && node.entries == if isDir then [Entry(".", r.value), Entry("..", handles[h])] else []
    {
      hide Inv, Refs, IsDot;
      HandleInUse(inodes, usage, handles, h);
      SameLength(inodes, usage, handles);
      var d := handles[h];
      var k := FindDirent(inodes[d].entries, name);
      if k < |inodes[d].entries| {
        return Exists;
      }
      var i := FindInode(usage);
      if i >= |usage| {
        return NoSpace;
      }
      FreeUnreachable(inodes, usage, handles, i);
      CreateStep(inodes, usage, handles, d, name, i, isDir);
      inodes := inodes[i := NewInode(isDir, i, d)];
      inodes := inodes[d := inodes[d].(entries := inodes[d].entries + [Entry(name, i)])];
      usage := usage[i := true];
      return Ok(i);
    }

    // vfs_ramfs_unlink.
    method Unlink(h: nat, name: Name) returns (r: Result<nat>)
      requires Valid() && OnDir(h)
      modifies this
      ensures Valid() && handles == old(handles) && |inodes| == |old(inodes)|
      ensures r.Param? <==> IsDot(name)
      ensures r.NotFound? <==> !IsDot(name) && !HasName(old(inodes)[old(handles)[h]].entries, name)
      ensures r.Ok? || r.Param? || r.NotFound? || r.NotEmpty?
      ensures r.NotEmpty? <==>
        !IsDot(name) && exists i :: Entry(name, i) in old(inodes)[old(handles)[h]].entries && HasFiles(old(inodes), i)
      ensures !r.Ok? ==> inodes == old(inodes) && usage == old(usage)
      ensures r.Ok? ==>
        var d := handles[h];
        exists k :: 0 <= k < |old(inodes)[d].entries| && old(inodes)[d].entries[k].name == name
                    && Unlinked(old(inodes), old(usage), inodes, usage, d, k, r.value)
    {
      hide Inv, Refs, IsDot;
      if IsDot(name) {
        return Param;
      }
      HandleInUse(inodes, usage, handles, h);
      SameLength(inodes, usage, handles);
      var d := handles[h];
      var k := FindDirent(inodes[d].entries, name);
      if k == |inodes[d].entries| {
        return NotFound;
      }
      NamedInUse(inodes, usage, handles, d, k);
      UniqueName(inodes, usage, handles, d, k);
      var i := inodes[d].entries[k].inode;
      if inodes[i].isDir {
        var empty := IsDirEmpty(inodes[i].entries);
        if !empty {
          assert Entry(name, i) == inodes[d].entries[k] && HasFiles(inodes, i);
          return NotEmpty;
        }
      }
      UnlinkStep(inodes, usage, handles, d, k);
      usage := usage[i := inodes[i].links > 1];
      inodes := inodes[i := Popped(inodes[i])];
      inodes := inodes[d := inodes[d].(entries := Removed(inodes[d].entries, k))];
      assert Unlinked(old(inodes), old(usage), inodes, usage, d, k, i);
      return Ok(i);
    }

    // vfs_ramfs_file_open.  The link count keeps covering the references if and only if the inode
    // found is in use.
    method Open(h: nat, name: Name, handle: nat) returns (r: Result<nat>)
      requires Valid() && OnDir(h) && handle !in handles
      modifies this
      ensures usage == old(usage)
      ensures r.NotFound? <==> !HasName(old(inodes)[old(handles)[h]].entries, name)
      ensures r.NotFound? ==> Valid() && inodes == old(inodes) && handles == old(handles)
      ensures !r.NotFound? ==> r.Ok? && r.value < |usage| && handles == old(handles)[handle := r.value]
      ensures r.Ok? ==> inodes == old(inodes)[r.value := old(inodes)[r.value].(links := old(inodes)[r.value].links + 1)]
      ensures r.Ok? ==> Entry(name, r.value) in old(inodes)[old(handles)[h]].entries
      ensures r.Ok? ==> (Valid() <==> usage[r.value])
      ensures r.Ok? && !IsDot(name) ==> Valid()
    {
      hide Inv, Refs, IsDot;
      HandleInUse(inodes, usage, handles, h);
      SameLength(inodes, usage, handles);
      var d := handles[h];
      var k := FindDirent(inodes[d].entries, name);
      if k == |inodes[d].entries| {
        return NotFound;
      }
      EntryInside(inodes, usage, handles, d, k);
      if !IsDot(name) {
        NamedInUse(inodes, usage, handles, d, k);
      }
      var i := inodes[d].entries[k].inode;
      assert inodes[d].entries[k] == Entry(name, i);
      OpenStep(inodes, usage, handles, i, handle);
      inodes := inodes[i := inodes[i].(links := inodes[i].links + 1)];
      handles := handles[handle := i];
      return Ok(i);
    }

    // vfs_ramfs_root_open.
    method RootOpen(handle: nat)
      requires Valid() && handle !in handles
      modifies this
      ensures Valid() && handles == old(handles)[handle := ROOT] && usage == old(usage)
      ensures ROOT < |old(inodes)| && inodes == old(inodes)[ROOT := old(inodes)[ROOT].(links := old(inodes)[ROOT].links + 1)]
    {
      hide Refs;
      OpenStep(inodes, usage, handles, ROOT, handle);
      inodes := inodes[ROOT := inodes[ROOT].(links := inodes[ROOT].links + 1)];
      handles := handles[handle := ROOT];
    }

    // vfs_ramfs_file_close.
    method Close(h: nat)
      requires Valid() && h in handles
      modifies this
      ensures Valid() && handles == old(handles) - {h}
      ensures var i := old(handles)[h];
        && i < |old(inodes)| == |old(usage)| && old(inodes)[i].links > 0
        && inodes == old(inodes)[i := Popped(old(inodes)[i])] && usage == old(usage)[i := old(inodes)[i].links > 1]
    {
      hide Inv, Refs;
      SameLength(inodes, usage, handles);
      CloseStep(inodes, usage, handles, h);
      var i := handles[h];
      usage := usage[i := inodes[i].links > 1];
      inodes := inodes[i := Popped(inodes[i])];
      handles := handles - {h};
    }
  }

  lemma SameLength(inodes: seq<Inode>, usage: seq<bool>, handles: map<nat, nat>)
    requires Inv(inodes, usage, handles)
    ensures |inodes| == |usage| && |inodes| > ROOT
  {
  }

  // ---------------------------------------------------------------- a directory that outlives its parent

  // Create the directory name in h, whose only other entries are its dots, and open it.
  method MakeDirectory(fs: Filesystem, h: nat, p: nat, name: Name, handle: nat) returns (i: nat)
    requires fs.Valid() && fs.OnDir(h) && handle !in fs.handles && !IsDot(name)
    requires fs.inodes[fs.handles[h]].entries == DotEntries(fs.handles[h], p)
    requires exists j :: FIRST <= j < |fs.usage| && !fs.usage[j]
    modifies fs
    ensures fs.Valid() && |fs.usage| == |old(fs.usage)| == |old(fs.inodes)| == |fs.inodes|
    ensures FIRST <= i < |fs.inodes| && !old(fs.usage)[i]
    ensures fs.usage == old(fs.usage)[i := true] && fs.handles == old(fs.handles)[handle := i]
    ensures var d := old(fs.handles)[h];
      && i != d && fs.inodes == old(fs.inodes)[i := Inode(true, 2, DotEntries(i, d))][d := old(fs.inodes)[d].(entries := DotEntries(d, p) + [Entry(name, i)])]
  {
    hide Inv, Refs;
    var d := fs.handles[h];
    HandleInUse(fs.inodes, fs.usage, fs.handles, h);
    SameLength(fs.inodes, fs.usage, fs.handles);
    var r := fs.Create(h, name, true);
    i := r.value;
    r := fs.Open(h, name, handle);
    assert fs.inodes[d].entries[2] == Entry(name, i);
  }

  // Remove it again: its slot stays in use while it is open.
  method RemoveDirectory(fs: Filesystem, h: nat, p: nat, name: Name, i: nat)
    requires fs.Valid() && fs.OnDir(h) && !IsDot(name) && i < |fs.inodes| && fs.inodes[i].links > 1
    requires fs.inodes[fs.handles[h]].entries == DotEntries(fs.handles[h], p) + [Entry(name, i)]
    requires fs.inodes[i].entries == DotEntries(i, fs.handles[h]) && i != fs.handles[h]
    modifies fs
    ensures |fs.usage| == |old(fs.usage)| == |old(fs.inodes)| == |fs.inodes|
    ensures fs.Valid() && fs.usage == old(fs.usage)[i := true] && fs.handles == old(fs.handles)
    ensures var d := old(fs.handles)[h];
      fs.inodes == old(fs.inodes)[i := Popped(old(fs.inodes)[i])][d := old(fs.inodes)[d].(entries := DotEntries(d, p))]
  {
    hide Inv, Refs;
    var d := fs.handles[h];
    var es := fs.inodes[d].entries;
    SameLength(fs.inodes, fs.usage, fs.handles);
    assert es[2] == Entry(name, i);
    var r := fs.Unlink(h, name);
    assert Removed(es, 2) == DotEntries(d, p);
  }

  // a lies in the root and b in a; both are directories, linked and open.
  ghost predicate Nested(inodes: seq<Inode>, usage: seq<bool>, a: nat, b: nat) {
    && |inodes| == LIST_LEN == |usage| && FIRST <= a < LIST_LEN && FIRST <= b < LIST_LEN && a != b
    && inodes[ROOT].isDir && inodes[ROOT].entries == DotEntries(ROOT, ROOT) + [Entry("a", a)]
    && inodes[a] == Inode(true, 2, DotEntries(a, ROOT) + [Entry("b", b)]) && usage[a]
    && inodes[b] == Inode(true, 2, DotEntries(b, a)) && usage[b]
  }

  method MakeNested() returns (fs: Filesystem, a: nat, b: nat)
    ensures fresh(fs) && fs.Valid() && Nested(fs.inodes, fs.usage, a, b)
    ensures fs.handles == map[0 := ROOT, 1 := a, 2 := b]
  {
    hide Inv, Refs, DotEntries;
    fs := new Filesystem();
    fs.RootOpen(0);
    assert !fs.usage[2];
    a := MakeDirectory(fs, 0, ROOT, "a", 1);
    assert !fs.usage[if a == 2 then 3 else 2];
    b := MakeDirectory(fs, 1, ROOT, "b", 2);
  }

  method UnlinkNested(fs: Filesystem, a: nat, b: nat)
    requires fs.Valid() && Nested(fs.inodes, fs.usage, a, b) && fs.handles == map[0 := ROOT, 1 := a, 2 := b]
    modifies fs
    ensures fs.Valid() && |fs.inodes| == LIST_LEN == |fs.usage| && fs.handles == old(fs.handles)
    ensures fs.inodes[a] == Inode(true, 1, DotEntries(a, ROOT)) && fs.inodes[b] == Inode(true, 1, DotEntries(b, a))
  {
    hide Inv, Refs, DotEntries;
    RemoveDirectory(fs, 1, ROOT, "b", b);
    RemoveDirectory(fs, 0, ROOT, "a", a);
  }

  // Make and open a and a/b, unlink both, close a: the ".." of b leads to a free slot, and opening it
  // leaves an inode that is open and not in use.
  method StaleParent() returns (fs: Filesystem, a: nat, b: nat)
    ensures fresh(fs) && |fs.inodes| == LIST_LEN == |fs.usage| && a < LIST_LEN && b < LIST_LEN
    ensures fs.inodes[b].entries == DotEntries(b, a) && fs.handles == map[0 := ROOT, 2 := b, 3 := a]
    ensures !fs.usage[a] && fs.inodes[a].links == 1 && !fs.Valid()
  {
    hide Inv, Refs;
    fs, a, b := MakeNested();
    UnlinkNested(fs, a, b);
    fs.Close(1);
    assert fs.inodes[b].entries[1] == Entry("..", a);
    var r := fs.Open(2, "..", 3);
    assert r == Ok(a);
  }

  lemma EntryInside(inodes: seq<Inode>, usage: seq<bool>, handles: map<nat, nat>, d: nat, k: nat)
    requires Inv(inodes, usage, handles) && d < |inodes| && usage[d] && k < |inodes[d].entries|
    ensures inodes[d].entries[k].inode < |inodes|
  {
    assert SlotOk(inodes, usage, handles, d);
  }

  lemma {:induction false} MountedNames(inodes: seq<Inode>, usage: seq<bool>, n: nat, i: nat)
    requires n <= |inodes| == |usage|
    requires forall d :: 0 <= d < |inodes| ==> inodes[d].entries == [] || inodes[d].entries == DotEntries(ROOT, ROOT)
    ensures NamesBelow(inodes, usage, n, i) == 0
  {
    hide Names;
    if n > 0 {
      MountedNames(inodes, usage, n - 1, i);
      DotNames(inodes[n - 1], ROOT, ROOT, i);
    }
  }
}
