// Reader-writer exclusion of mutex.c and spinlock.c: any number of clients run the retry loops over one
// atomic word.  Each step is one atomic action; weak compare-and-swaps may fail at any time, and the
// loops keep stale copies of the word in between.
module Locks {
  import opened Words

  type Client = nat

  // Where a client is in its calls.  cur is its local copy of the word.
  datatype Pc =
    | Out
    | TakingExcl(cur: int) | Excl | ReleasingExcl
    | TakingShared(cur: int) | Shared | ReleasingShared(cur: int)

  datatype Lock = Lock(value: int, clients: map<Client, Pc>)

  predicate Owns(pc: Pc) { pc.Excl? || pc.ReleasingExcl? }

  predicate Shares(pc: Pc) { pc.Shared? || pc.ReleasingShared? }

  ghost function Owners(l: Lock): set<Client> { set c | c in l.clients && Owns(l.clients[c]) }

  ghost function Sharers(l: Lock): set<Client> { set c | c in l.clients && Shares(l.clients[c]) }

  // Client c moves to pc while the word becomes v.
  function Move(l: Lock, c: Client, pc: Pc, v: int): Lock { Lock(v, l.clients[c := pc]) }

  // What a move does to the two sets of holders.
  lemma MoveCounts(l: Lock, c: Client, pc: Pc, v: int)
    requires c in l.clients
    ensures var o, p, n := l.clients[c], Move(l, c, pc, v), pc;
      && |Owners(p)| == |Owners(l)| + (if Owns(n) then 1 else 0) - (if Owns(o) then 1 else 0)
      && |Sharers(p)| == |Sharers(l)| + (if Shares(n) then 1 else 0) - (if Shares(o) then 1 else 0)
  {
    hide Owners, Sharers;
    OwnersMove(l, c, pc, v);
    SharersMove(l, c, pc, v);
  }

  lemma OwnersMove(l: Lock, c: Client, pc: Pc, v: int)
    requires c in l.clients
    ensures |Owners(Move(l, c, pc, v))| == |Owners(l)| + (if Owns(pc) then 1 else 0) - (if Owns(l.clients[c]) then 1 else 0)
  {
    var p := Move(l, c, pc, v);
    SplitCount(Owners(p), c);
    SplitCount(Owners(l), c);
    assert Owners(p) - {c} == Owners(l) - {c};
  }

  lemma SharersMove(l: Lock, c: Client, pc: Pc, v: int)
    requires c in l.clients
    ensures |Sharers(Move(l, c, pc, v))| == |Sharers(l)| + (if Shares(pc) then 1 else 0) - (if Shares(l.clients[c]) then 1 else 0)
  {
    var p := Move(l, c, pc, v);
    SplitCount(Sharers(p), c);
    SplitCount(Sharers(l), c);
    assert Sharers(p) - {c} == Sharers(l) - {c};
  }

  lemma SplitCount(s: set<Client>, c: Client)
    ensures |s| == |s - {c}| + if c in s then 1 else 0
  {
    if c in s {
      assert s == (s - {c}) + {c};
    } else {
      assert s == s - {c};
    }
  }

  lemma HolderCounts(l: Lock, c: Client)
    requires c in l.clients
    ensures Owns(l.clients[c]) ==> |Owners(l)| > 0
    ensures Shares(l.clients[c]) ==> |Sharers(l)| > 0
  {
    if Owns(l.clients[c]) {
      assert c in Owners(l);
    }
    if Shares(l.clients[c]) {
      assert c in Sharers(l);
    }
  }

  lemma NoHolders(l: Lock)
    requires forall c :: c in l.clients ==> l.clients[c] == Out
    ensures Owners(l) == {} && Sharers(l) == {}
  {
  }

  // ---------------------------------------------------------------- mutex

  // EXCLUSIVE_MAGIC: INT_MAX / 4.
  const MAGIC := 0x1FFF_FFFF

  // await_swap_atomic_int, thresh_add_atomic_int and unequal_sub_atomic_int, for clients that release
  // only what they hold.
  datatype MutexStep =
    | AcquireBegin | AcquireSwap | ReleaseBegin | ReleaseSwap
    | ShareLoad | ShareSwap | ShareFail | UnshareLoad | UnshareSwap | UnshareFail
    | TimeOut

  predicate BelowThreshold(cur: int) { !(cur >= MAGIC || cur + 1 >= MAGIC) }

  predicate MutexEnabled(l: Lock, pc: Pc, e: MutexStep) {
    match e
    case AcquireBegin => pc.Out?
    case AcquireSwap => pc.TakingExcl? && l.value == 0
    case ReleaseBegin => pc.Excl?
    case ReleaseSwap => pc.ReleasingExcl? && l.value == MAGIC
    case ShareLoad => pc.Out?
    case ShareSwap => pc.TakingShared? && BelowThreshold(pc.cur) && l.value == pc.cur
    case ShareFail => pc.TakingShared? && BelowThreshold(pc.cur)
    case UnshareLoad => pc.Shared?
    case UnshareSwap => pc.ReleasingShared? && pc.cur != 0 && pc.cur != MAGIC && l.value == pc.cur
    case UnshareFail => pc.ReleasingShared? && pc.cur != 0 && pc.cur != MAGIC
    case TimeOut => pc.TakingExcl? || pc.TakingShared?
  }

  function MutexApply(l: Lock, c: Client, pc: Pc, e: MutexStep): Lock
    requires MutexEnabled(l, pc, e)
  {
    match e
    case AcquireBegin => Move(l, c, TakingExcl(0), l.value)
    case AcquireSwap => Move(l, c, Excl, MAGIC)
    case ReleaseBegin => Move(l, c, ReleasingExcl, l.value)
    case ReleaseSwap => Move(l, c, Out, 0)
    case ShareLoad => Move(l, c, TakingShared(l.value), l.value)
    case ShareSwap => Move(l, c, Shared, pc.cur + 1)
    case ShareFail => Move(l, c, TakingShared(l.value), l.value)
    case UnshareLoad => Move(l, c, ReleasingShared(l.value), l.value)
    case UnshareSwap => Move(l, c, Out, pc.cur - 1)
    case UnshareFail => Move(l, c, ReleasingShared(l.value), l.value)
    case TimeOut => Move(l, c, Out, l.value)
  }

  // The counter is EXCLUSIVE_MAGIC when there is one owner and no sharer; else it counts the sharers.
  ghost predicate MutexExcludes(l: Lock) {
    if l.value == MAGIC then |Owners(l)| == 1 && |Sharers(l)| == 0
    else |Owners(l)| == 0 && l.value == |Sharers(l)| && l.value < MAGIC
  }

  // The copy a releasing sharer holds never blocks its release.
  ghost predicate ReleasesPass(l: Lock) {
    forall c :: c in l.clients && l.clients[c].ReleasingShared? ==> 0 < l.clients[c].cur < MAGIC
  }

  ghost predicate MutexInv(l: Lock) { MutexExcludes(l) && ReleasesPass(l) }

  lemma MutexStepKeeps(l: Lock, c: Client, e: MutexStep)
    requires MutexInv(l) && c in l.clients && MutexEnabled(l, l.clients[c], e)
    ensures MutexInv(MutexApply(l, c, l.clients[c], e))
  {
    hide Owners, Sharers;
    var pc, n := l.clients[c], MutexApply(l, c, l.clients[c], e);
    HolderCounts(l, c);
    MoveCounts(l, c, n.clients[c], n.value);
  }

  ghost predicate MutexRun(l: Lock, steps: seq<(Client, MutexStep)>, n: Lock)
    decreases |steps|
  {
    if steps == [] then l == n
    else
      var (c, e) := steps[0];
      c in l.clients && MutexEnabled(l, l.clients[c], e) && MutexRun(MutexApply(l, c, l.clients[c], e), steps[1..], n)
  }

  lemma {:induction false} MutexRunKeeps(l: Lock, steps: seq<(Client, MutexStep)>, n: Lock)
    requires MutexInv(l) && MutexRun(l, steps, n)
    ensures MutexInv(n)
    decreases |steps|
  {
    hide MutexInv, MutexEnabled, MutexApply;
    if steps != [] {
      var (c, e) := steps[0];
      MutexStepKeeps(l, c, e);
      MutexRunKeeps(MutexApply(l, c, l.clients[c], e), steps[1..], n);
    }
  }

  // The lock as it is made, with every client outside.
  predicate Fresh(l: Lock, value: int) { l.value == value && forall c :: c in l.clients ==> l.clients[c] == Out }

  lemma MutexStart(l: Lock)
    requires Fresh(l, 0)
    ensures MutexInv(l)
  {
    NoHolders(l);
  }

  // In every run from a new mutex: one owner and no sharers, or no owner and as many sharers as the
  // counter says.
  lemma MutexExclusion(l: Lock, steps: seq<(Client, MutexStep)>, n: Lock)
    requires Fresh(l, 0) && MutexRun(l, steps, n)
    ensures MutexInv(n)
  {
    hide MutexInv;
    MutexStart(l);
    MutexRunKeeps(l, steps, n);
  }

  // A client with a current copy can go on: it takes the mutex when nobody holds it, and shares it when
  // nobody owns it and the counter has room.  A retry makes the copy current.
  lemma MutexTakes(l: Lock, c: Client)
    requires MutexInv(l) && c in l.clients
    ensures l.clients[c].TakingExcl? ==> (MutexEnabled(l, l.clients[c], AcquireSwap) <==> |Owners(l)| == 0 && |Sharers(l)| == 0)
    ensures l.clients[c].TakingShared? && l.clients[c].cur == l.value ==>
              (MutexEnabled(l, l.clients[c], ShareSwap) <==> |Owners(l)| == 0 && |Sharers(l)| + 1 < MAGIC)
    ensures l.clients[c].TakingShared? && MutexEnabled(l, l.clients[c], ShareFail) ==>
              MutexApply(l, c, l.clients[c], ShareFail).clients[c] == TakingShared(l.value)
    ensures MutexEnabled(l, l.clients[c], TimeOut) <==> l.clients[c].TakingExcl? || l.clients[c].TakingShared?
  {
    hide Owners, Sharers;
  }

  // Two clients can share a new mutex.
  lemma TwoShare(a: Client, b: Client) returns (l: Lock, steps: seq<(Client, MutexStep)>, n: Lock)
    requires a != b
    ensures Fresh(l, 0) && MutexRun(l, steps, n) && Sharers(n) == {a, b} && n.value == 2
  {
    l := Lock(0, map[a := Out, b := Out]);
    var l1 := MutexApply(l, a, Out, ShareLoad);
    var l2 := MutexApply(l1, a, l1.clients[a], ShareSwap);
    var l3 := MutexApply(l2, b, l2.clients[b], ShareLoad);
    n := MutexApply(l3, b, l3.clients[b], ShareSwap);
    var last: seq<(Client, MutexStep)> := [(b, ShareSwap)];
    var second := [(b, ShareLoad)] + last;
    var rest := [(a, ShareSwap)] + second;
    steps := [(a, ShareLoad)] + rest;
    assert MutexRun(l3, last, n) && second[1..] == last;
    assert MutexRun(l2, second, n) && rest[1..] == second;
    assert MutexRun(l1, rest, n) && steps[1..] == rest;
    assert n.clients == map[a := Shared, b := Shared];
  }

  // A holder's release can always make its swap or retry: the assertions on the counter hold and the
  // test of the illegal values never fails.
  lemma MutexReleases(l: Lock, c: Client)
    requires MutexInv(l) && c in l.clients
    ensures Owns(l.clients[c]) ==> l.value == MAGIC
    ensures Shares(l.clients[c]) ==> 0 < l.value < MAGIC
    ensures l.clients[c].ReleasingExcl? ==> MutexEnabled(l, l.clients[c], ReleaseSwap)
    ensures l.clients[c].ReleasingShared? ==> MutexEnabled(l, l.clients[c], UnshareFail)
    ensures l.clients[c].ReleasingShared? ==> (MutexEnabled(l, l.clients[c], UnshareSwap) <==> l.clients[c].cur == l.value)
  {
    hide Owners, Sharers;
    HolderCounts(l, c);
  }

  // ---------------------------------------------------------------- spinlock

  const INT_MIN := -0x8000_0000

  datatype SpinStep =
    | TakeLoad | TakeSwap | TakeFail | Release
    | TakeSharedLoad | TakeSharedSwap | TakeSharedFail | ReleaseShared

  // cur & 1 is the shareable bit, also of a negative word.
  function FreeWord(cur: int): int { cur % 2 }

  function SharedWord(cur: int): int { if cur < 0 then 1 else cur }

  predicate SpinEnabled(l: Lock, pc: Pc, e: SpinStep) {
    match e
    case TakeLoad => pc.Out?
    case TakeSwap => pc.TakingExcl? && l.value == FreeWord(pc.cur)
    case TakeFail => pc.TakingExcl?
    case Release => pc.Excl?
    case TakeSharedLoad => pc.Out? && l.value % 2 == 1
    case TakeSharedSwap => pc.TakingShared? && l.value == SharedWord(pc.cur)
    case TakeSharedFail => pc.TakingShared?
    case ReleaseShared => pc.Shared?
  }

  function SpinApply(l: Lock, c: Client, pc: Pc, e: SpinStep): Lock
    requires SpinEnabled(l, pc, e)
  {
    match e
    case TakeLoad => Move(l, c, TakingExcl(l.value), l.value)
    case TakeSwap => Move(l, c, Excl, FreeWord(pc.cur) + INT_MIN)
    case TakeFail => Move(l, c, TakingExcl(l.value), l.value)
    case Release => Move(l, c, Out, FreeWord(l.value))
    case TakeSharedLoad => Move(l, c, TakingShared(l.value), l.value)
    case TakeSharedSwap => Move(l, c, Shared, Wrap32(SharedWord(pc.cur) + 2))
    case TakeSharedFail => Move(l, c, TakingShared(l.value), l.value)
    case ReleaseShared => Move(l, c, Out, Wrap32(l.value - 2))
  }

  // Sign, count and shareable bit: INT_MIN + bit with one owner, else twice the sharers + bit.
  ghost predicate SpinInv(l: Lock, bit: int) {
    && 0 <= bit <= 1
    && (if l.value < 0 then |Owners(l)| == 1 && |Sharers(l)| == 0 && l.value == INT_MIN + bit
        else |Owners(l)| == 0 && l.value == 2 * |Sharers(l)| + bit)
    && l.value <= 0x7FFF_FFFF
    && (forall c :: c in l.clients && (l.clients[c].TakingShared? || Shares(l.clients[c])) ==> bit == 1)
    && (forall c :: c in l.clients && l.clients[c].TakingExcl? ==> l.clients[c].cur % 2 == bit)
    && (forall c :: c in l.clients && l.clients[c].TakingShared? ==> l.clients[c].cur < 0 || l.clients[c].cur % 2 == 1)
  }

  // Where the word leaves the range of int: 2^30 - 1 sharers are the most it can count.
  const MOST_SHARERS := 0x3FFF_FFFF

  // A step keeps the encoding, if and only if it does not take share number 2^30.
  lemma SpinStepKeeps(l: Lock, bit: int, c: Client, e: SpinStep)
    requires SpinInv(l, bit) && c in l.clients && SpinEnabled(l, l.clients[c], e)
    ensures SpinInv(SpinApply(l, c, l.clients[c], e), bit) <==> !(e.TakeSharedSwap? && |Sharers(l)| == MOST_SHARERS)
  {
    hide Owners, Sharers;
    var pc, n := l.clients[c], SpinApply(l, c, l.clients[c], e);
    HolderCounts(l, c);
    MoveCounts(l, c, n.clients[c], n.value);
    if e.TakeSharedSwap? {
      assert bit == 1;
    }
  }

  ghost predicate SpinRun(l: Lock, steps: seq<(Client, SpinStep)>, n: Lock)
    decreases |steps|
  {
    if steps == [] then l == n
    else
      var (c, e) := steps[0];
      c in l.clients && SpinEnabled(l, l.clients[c], e) && SpinRun(SpinApply(l, c, l.clients[c], e), steps[1..], n)
  }

  lemma {:induction false} SpinRunKeeps(l: Lock, bit: int, steps: seq<(Client, SpinStep)>, n: Lock)
    requires SpinInv(l, bit) && SpinRun(l, steps, n) && |l.clients| <= MOST_SHARERS
    ensures SpinInv(n, bit) && n.value % 2 == bit
    decreases |steps|
  {
    hide SpinEnabled, SpinApply, Owners, Sharers;
    if steps != [] {
      var (c, e) := steps[0];
      SharerRoom(l, c, e);
      SpinStepKeeps(l, bit, c, e);
      SpinRunKeeps(SpinApply(l, c, l.clients[c], e), bit, steps[1..], n);
    }
  }

  lemma SharerRoom(l: Lock, c: Client, e: SpinStep)
    requires c in l.clients && SpinEnabled(l, l.clients[c], e)
    ensures e.TakeSharedSwap? ==> |Sharers(l)| < |l.clients|
    ensures |SpinApply(l, c, l.clients[c], e).clients| == |l.clients|
  {
    assert |l.clients| == |l.clients.Keys|;
    if e.TakeSharedSwap? {
      assert c !in Sharers(l) && Sharers(l) <= l.clients.Keys - {c};
      assert l.clients.Keys - {c} == Sharers(l) + (l.clients.Keys - {c} - Sharers(l));
    }
    assert SpinApply(l, c, l.clients[c], e).clients.Keys == l.clients.Keys;
  }

  lemma SpinStart(l: Lock, bit: int)
    requires 0 <= bit <= 1 && Fresh(l, bit)
    ensures SpinInv(l, bit)
  {
    NoHolders(l);
  }

  // In every run of fewer than 2^30 clients from a new spinlock, shareable or not, the encoding holds
  // and the shareable bit survives.
  lemma SpinExclusion(l: Lock, bit: int, steps: seq<(Client, SpinStep)>, n: Lock)
    requires 0 <= bit <= 1 && Fresh(l, bit) && SpinRun(l, steps, n) && |l.clients| <= MOST_SHARERS
    ensures SpinInv(n, bit) && n.value % 2 == bit
  {
    hide SpinInv;
    SpinStart(l, bit);
    SpinRunKeeps(l, bit, steps, n);
  }

  // The first m of 2^30 clients share, and the others are outside.
  function Sharing(m: nat): Lock { Lock(2 * m + 1, map c: nat | c <= MOST_SHARERS :: Role(c, m)) }

  function Role(c: Client, m: nat): Pc { if c < m then Shared else Out }

  // One client after the other takes a share: the last one makes the word negative.
  lemma {:induction false} ShareRun(m: nat) returns (steps: seq<(Client, SpinStep)>, n: Lock)
    requires m <= MOST_SHARERS
    ensures SpinRun(Sharing(m), steps, n) && n.value < 0 && 0 in n.clients && forall c :: c in n.clients ==> n.clients[c] == Shared
    decreases MOST_SHARERS - m
  {
    var l := Sharing(m);
    var l1 := SpinApply(l, m, l.clients[m], TakeSharedLoad);
    var l2 := SpinApply(l1, m, l1.clients[m], TakeSharedSwap);
    var first := [(m, TakeSharedLoad), (m, TakeSharedSwap)];
    var rest;
    if m == MOST_SHARERS {
      rest, n := [], l2;
    } else {
      assert l2 == Sharing(m + 1);
      rest, n := ShareRun(m + 1);
    }
    steps := first + rest;
    assert steps[1..] == [first[1]] + rest && steps[1..][1..] == rest;
  }

  // A run of 2^30 clients from a new shareable spinlock after which the assertion of a release fails.
  lemma ShareOverflows() returns (l: Lock, steps: seq<(Client, SpinStep)>, n: Lock)
    ensures Fresh(l, 1) && SpinRun(l, steps, n) && n.value < 0 && 0 in n.clients && forall c :: c in n.clients ==> n.clients[c] == Shared
    ensures !SpinInv(n, 1)
  {
    l := Sharing(0);
    steps, n := ShareRun(0);
    if SpinInv(n, 1) {
      SpinReleases(n, 1, 0);
    }
  }

  // A client with a current copy can go on here too.
  lemma SpinTakes(l: Lock, bit: int, c: Client)
    requires SpinInv(l, bit) && c in l.clients
    ensures l.clients[c].TakingExcl? ==> (SpinEnabled(l, l.clients[c], TakeSwap) <==> |Owners(l)| == 0 && |Sharers(l)| == 0)
    ensures l.clients[c].TakingShared? && l.clients[c].cur == l.value ==>
              (SpinEnabled(l, l.clients[c], TakeSharedSwap) <==> |Owners(l)| == 0)
    ensures l.clients[c].TakingShared? && l.clients[c].cur < 0 ==>
              (SpinEnabled(l, l.clients[c], TakeSharedSwap) <==> |Owners(l)| == 0 && |Sharers(l)| == 0)
    ensures l.clients[c].Out? ==> SpinEnabled(l, Out, TakeLoad) && (SpinEnabled(l, Out, TakeSharedLoad) <==> bit == 1)
    ensures l.clients[c].TakingShared? ==> SpinApply(l, c, l.clients[c], TakeSharedFail).clients[c] == TakingShared(l.value)
  {
    hide Owners, Sharers;
  }

  // The assertions of the releases hold.
  lemma SpinReleases(l: Lock, bit: int, c: Client)
    requires SpinInv(l, bit) && c in l.clients
    ensures l.clients[c].Excl? ==> l.value < 0
    ensures l.clients[c].Shared? ==> l.value >= 2
  {
    hide Owners, Sharers;
    HolderCounts(l, c);
  }
}
