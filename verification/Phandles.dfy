// The phandle table of dtb.c: built by a walk over the parsed tree, searched by bisection.
module Phandles {
  import opened Devicetree
  import opened Bits
  import opened Options
  import opened Words

  // A node, by the child indices that lead to it from the root.
  type Path = seq<nat>

  datatype Ref = Ref(phandle: nat, path: Path)

  function ContentByte(p: Prop, i: nat): nat {
    if i / 4 < |p.content| then Byte(p.content, 0, i) else 0
  }

  // dtb_prop_read_uint: the first n bytes as one big-endian 64-bit number.
  function ReadUint(p: Prop, n: nat): nat {
    if n == 0 then 0 else (ReadUint(p, n - 1) * 256 + ContentByte(p, n - 1)) % (WORD * WORD)
  }

  // What it should be: the big-endian number of all the bytes.
  ghost function Number(p: Prop, n: nat): nat {
    if n == 0 then 0 else Number(p, n - 1) * 256 + ContentByte(p, n - 1)
  }

  lemma {:induction false} ReadsNumber(p: Prop, n: nat)
    ensures ReadUint(p, n) == Number(p, n) % (WORD * WORD)
  {
    if n > 0 {
      ReadsNumber(p, n - 1);
      ShiftIn(Number(p, n - 1), ContentByte(p, n - 1), WORD * WORD);
    }
  }

  lemma ShiftIn(a: nat, b: nat, m: nat)
    requires m > 0
    ensures ((a % m) * 256 + b) % m == (a * 256 + b) % m
  {
    var q, r := a / m, a % m;
    assert a == m * q + r;
    Distribute(m, q, r, b);
    DropMultiple(256 * q, r * 256 + b, m);
  }

  lemma Distribute(m: nat, q: nat, r: nat, b: nat)
    ensures (m * q + r) * 256 + b == m * (256 * q) + (r * 256 + b)
  {
  }

  // A property of one cell is its word, and one of two cells is both.
  lemma CellValue(p: Prop)
    requires forall i :: 0 <= i < |p.content| ==> p.content[i] < WORD
    ensures |p.content| >= 1 ==> Number(p, 4) == p.content[0]
    ensures |p.content| >= 2 ==> Number(p, 8) == p.content[0] * WORD + p.content[1]
  {
    hide Byte;
    if |p.content| >= 1 {
      CellBytes(p, 0, 0);
    }
    if |p.content| >= 2 {
      CellBytes(p, 1, 4);
    }
  }

  // Four more bytes are one more word.
  lemma CellBytes(p: Prop, i: nat, n: nat)
    requires i < |p.content| && n == 4 * i && p.content[i] < WORD
    ensures Number(p, n + 4) == Number(p, n) * WORD + p.content[i]
  {
    hide Byte;
    var a, b, c, d := ContentByte(p, n), ContentByte(p, n + 1), ContentByte(p, n + 2), ContentByte(p, n + 3);
    WordBytes(p.content, i);
    assert n / 4 == i && (n + 1) / 4 == i && (n + 2) / 4 == i && (n + 3) / 4 == i;
    assert Number(p, n + 1) == Number(p, n) * 256 + a;
    assert Number(p, n + 2) == Number(p, n + 1) * 256 + b;
    assert Number(p, n + 3) == Number(p, n + 2) * 256 + c;
    assert Number(p, n + 4) == Number(p, n + 3) * 256 + d;
  }

  lemma WordBytes(w: seq<nat>, i: nat)
    requires i < |w| && w[i] < WORD
    ensures 0x100_0000 * Byte(w, 0, 4 * i) + 0x1_0000 * Byte(w, 0, 4 * i + 1) + 0x100 * Byte(w, 0, 4 * i + 2) + Byte(w, 0, 4 * i + 3) == w[i]
  {
    var x := w[i];
    assert 4 * i / 4 == i && (4 * i + 1) / 4 == i && (4 * i + 2) / 4 == i && (4 * i + 3) / 4 == i;
    FourBytes(x);
  }

  lemma FourBytes(x: nat)
    requires x < WORD
    ensures 0x100_0000 * (x / 0x100_0000 % 256) + 0x1_0000 * (x / 0x1_0000 % 256) + 0x100 * (x / 0x100 % 256) + x % 256 == x
  {
    var y := x / 0x100;
    var z := y / 0x100;
    assert x / 0x1_0000 == z && x / 0x100_0000 == z / 0x100 < 256;
  }

  // "phandle" and its terminator.
  const PHANDLE: seq<nat> := Ascii("phandle") + [0]

  function Ascii(s: string): seq<nat> { seq(|s|, i requires 0 <= i < |s| => s[i] as nat) }

  predicate NamedPhandle(strings: seq<nat>, p: Prop) {
    p.nameOff + 8 <= |strings| && strings[p.nameOff..p.nameOff + 8] == PHANDLE
  }

  // dtb_get_prop: the first property of that name, as a 32-bit number.
  function PhandleIn(strings: seq<nat>, props: seq<Prop>): (r: Option<nat>)
    ensures r.Some? ==> r.value < WORD
  {
    if props == [] then None
    else if NamedPhandle(strings, props[0]) then Some(ReadUint(props[0], props[0].len) % WORD)
    else PhandleIn(strings, props[1..])
  }

  // Property k is the first one named "phandle", and ph its value.
  ghost predicate PhandleAt(strings: seq<nat>, props: seq<Prop>, k: nat, ph: nat) {
    && k < |props| && NamedPhandle(strings, props[k]) && ph == Number(props[k], props[k].len) % WORD
    && forall j :: 0 <= j < k ==> !NamedPhandle(strings, props[j])
  }

  ghost predicate HasPhandle(strings: seq<nat>, props: seq<Prop>, ph: nat) {
    exists k: nat :: PhandleAt(strings, props, k, ph)
  }

  // The search finds exactly that, wherever it is among the properties.
  lemma {:induction false} PhandleIs(strings: seq<nat>, props: seq<Prop>, ph: nat)
    ensures PhandleIn(strings, props) == Some(ph) <==> HasPhandle(strings, props, ph)
  {
    hide NamedPhandle, Number, ReadUint;
    if props != [] {
      var p := props[0];
      ReadsNumber(p, p.len);
      WordOfDouble(Number(p, p.len));
      PhandleIs(strings, props[1..], ph);
      if NamedPhandle(strings, p) {
        if PhandleIn(strings, props) == Some(ph) {
          assert PhandleAt(strings, props, 0, ph);
        }
      } else {
        if k: nat :| PhandleAt(strings, props, k, ph) {
          assert PhandleAt(strings, props[1..], k - 1, ph);
        }
        if k: nat :| PhandleAt(strings, props[1..], k, ph) {
          assert PhandleAt(strings, props, k + 1, ph);
        }
      }
    }
  }

  lemma WordOfDouble(x: nat)
    ensures x % (WORD * WORD) % WORD == x % WORD
  {
    var q, r := x / (WORD * WORD), x % (WORD * WORD);
    assert x == (WORD * WORD) * q + r;
    DivModUnique(x, WORD, WORD * q + r / WORD, r % WORD);
  }

  // phandle_cmp: the difference of two 32-bit numbers, read as a signed one.
  function Cmp(a: nat, b: nat): int {
    var d := (a - b) % WORD;
    if d >= WORD / 2 then d - WORD else d
  }

  // It orders two phandles exactly when they are less than 2^31 apart.
  lemma CmpExact(a: nat, b: nat)
    requires a < WORD && b < WORD
    ensures (Cmp(a, b) < 0 <==> a < b) && (Cmp(b, a) < 0 <==> b < a) <==> -0x8000_0000 < a - b < 0x8000_0000
    ensures Cmp(a, b) == 0 <==> a == b
  {
  }

  // How far a phandle lies past base, counting around the 32-bit circle.
  function Key(ph: nat, base: nat): nat { (ph - base) % WORD }

  // The phandle lies in the half circle that starts at base.
  predicate InHalf(ph: nat, base: nat) { ph < WORD && base < WORD && Key(ph, base) < WORD / 2 }

  // Within a half circle it is the order of the keys.
  lemma CmpInHalf(a: nat, b: nat, base: nat)
    requires InHalf(a, base) && InHalf(b, base)
    ensures Cmp(a, b) == Key(a, base) - Key(b, base)
    ensures Key(a, base) == Key(b, base) <==> a == b
  {
    KeyIs(a, base);
    KeyIs(b, base);
  }

  lemma KeyIs(ph: nat, base: nat)
    requires ph < WORD && base < WORD
    ensures Key(ph, base) == if ph >= base then ph - base else ph - base + WORD
  {
  }

  // ---------------------------------------------------------------- the tree

  predicate Within(n: Node, path: Path)
    decreases |path|
  {
    path == [] || (path[0] < |n.nodes| && Within(n.nodes[path[0]], path[1..]))
  }

  function At(n: Node, path: Path): Node
    requires Within(n, path)
    decreases |path|
  {
    if path == [] then n else At(n.nodes[path[0]], path[1..])
  }

  // The node at path carries the phandle.
  ghost predicate Carries(strings: seq<nat>, n: Node, path: Path, ph: nat) {
    Within(n, path) && HasPhandle(strings, At(n, path).props, ph)
  }

  // Every carrier in the tree below n (reached at path at) is in t, and t holds nothing but them and was.
  ghost predicate Table(strings: seq<nat>, n: Node, at: Path, was: seq<Ref>, t: seq<Ref>) {
    forall r :: r in t <==> r in was || Below(strings, n, at, r)
  }

  ghost predicate Below(strings: seq<nat>, n: Node, at: Path, r: Ref) {
    |at| <= |r.path| && r.path[..|at|] == at && Carries(strings, n, r.path[|at|..], r.phandle)
  }

  predicate AllInHalf(t: seq<Ref>, base: nat) { forall i :: 0 <= i < |t| ==> InHalf(t[i].phandle, base) }

  predicate Sorted(t: seq<Ref>, base: nat) {
    forall i, j :: 0 <= i < j < |t| ==> Key(t[i].phandle, base) <= Key(t[j].phandle, base)
  }

  // ---------------------------------------------------------------- the table

  // array_binsearch with phandle_cmp, between lo and hi.
  function Search(t: seq<Ref>, ph: nat, lo: nat, hi: nat): (r: (bool, nat))
    requires lo <= hi <= |t|
    ensures lo <= r.1 <= hi && (r.0 ==> r.1 < |t| && Cmp(t[r.1].phandle, ph) == 0)
    decreases hi - lo
  {
    if lo == hi then (false, lo)
    else
      var mid := lo + (hi - lo) / 2;
      var c := Cmp(t[mid].phandle, ph);
      if c == 0 then (true, mid) else if c < 0 then Search(t, ph, mid + 1, hi) else Search(t, ph, lo, mid)
  }

  method BinSearch(t: seq<Ref>, ph: nat) returns (found: bool, index: nat)
    ensures (found, index) == Search(t, ph, 0, |t|)
  {
    hide Cmp;
    var lo, hi := 0, |t|;
    while lo < hi
      invariant 0 <= lo <= hi <= |t| && Search(t, ph, lo, hi) == Search(t, ph, 0, |t|)
    {
      var mid := lo + (hi - lo) / 2;
      var c := Cmp(t[mid].phandle, ph);
      if c == 0 {
        return true, mid;
      } else if c < 0 {
        lo := mid + 1;
      } else {
        hi := mid;
      }
    }
    return false, lo;
  }

  // On a sorted table in a half circle it finds what is there, or where it belongs.
  lemma {:induction false} SearchFinds(t: seq<Ref>, ph: nat, base: nat, lo: nat, hi: nat)
    requires AllInHalf(t, base) && InHalf(ph, base) && Sorted(t, base) && lo <= hi <= |t|
    requires forall i :: 0 <= i < lo ==> Key(t[i].phandle, base) < Key(ph, base)
    requires forall i :: hi <= i < |t| ==> Key(t[i].phandle, base) > Key(ph, base)
    ensures var r := Search(t, ph, lo, hi);
      && (r.0 <==> exists i :: 0 <= i < |t| && t[i].phandle == ph)
      && (forall i :: 0 <= i < r.1 ==> Key(t[i].phandle, base) <= Key(ph, base))
      && (forall i :: r.1 <= i < |t| ==> Key(t[i].phandle, base) >= Key(ph, base))
    decreases hi - lo
  {
    hide Cmp, Key;
    if lo < hi {
      var mid := lo + (hi - lo) / 2;
      CmpInHalf(t[mid].phandle, ph, base);
      if Cmp(t[mid].phandle, ph) < 0 {
        SearchFinds(t, ph, base, mid + 1, hi);
      } else if Cmp(t[mid].phandle, ph) > 0 {
        SearchFinds(t, ph, base, lo, mid);
      }
    }
  }

  predicate Unique(t: seq<Ref>) { forall i, j :: 0 <= i < j < |t| ==> t[i].phandle != t[j].phandle }

  predicate Finds(t: seq<Ref>, i: nat, lo: nat, hi: nat)
    requires i < |t| && lo <= hi <= |t|
  {
    Search(t, t[i].phandle, lo, hi) == (true, i)
  }

  // The middle entry is ordered with every other one between lo and hi, and so on in both parts.
  predicate Bisected(t: seq<Ref>, lo: nat, hi: nat)
    requires lo <= hi <= |t|
    decreases hi - lo
  {
    lo < hi ==>
      var mid := lo + (hi - lo) / 2;
      && (forall i :: lo <= i < mid ==> Cmp(t[mid].phandle, t[i].phandle) > 0) && Bisected(t, lo, mid)
      && (forall i :: mid < i < hi ==> Cmp(t[mid].phandle, t[i].phandle) < 0) && Bisected(t, mid + 1, hi)
  }

  // Bisection finds every entry of a table, sorted or not, if and only if it meets the table in order.
  lemma SearchExact(t: seq<Ref>)
    requires Unique(t) && forall i :: 0 <= i < |t| ==> t[i].phandle < WORD
    ensures (forall i :: 0 <= i < |t| ==> Finds(t, i, 0, |t|)) <==> Bisected(t, 0, |t|)
  {
    hide Finds, Bisected, Unique;
    if Bisected(t, 0, |t|) {
      OrderFinds(t, 0, |t|);
    }
    if forall i :: 0 <= i < |t| ==> Finds(t, i, 0, |t|) {
      FindsInOrder(t, 0, |t|);
    }
  }

  lemma {:induction false} OrderFinds(t: seq<Ref>, lo: nat, hi: nat)
    requires lo <= hi <= |t| && Unique(t) && forall i :: 0 <= i < |t| ==> t[i].phandle < WORD
    requires Bisected(t, lo, hi)
    ensures forall i :: lo <= i < hi ==> Finds(t, i, lo, hi)
    decreases hi - lo
  {
    hide Cmp, Finds, Unique;
    if lo < hi {
      var mid := lo + (hi - lo) / 2;
      OrderFinds(t, lo, mid);
      OrderFinds(t, mid + 1, hi);
      forall i | lo <= i < hi ensures Finds(t, i, lo, hi) {
        FindStep(t, i, lo, hi);
      }
    }
  }

  lemma {:induction false} FindsInOrder(t: seq<Ref>, lo: nat, hi: nat)
    requires lo <= hi <= |t| && Unique(t) && forall i :: 0 <= i < |t| ==> t[i].phandle < WORD
    requires forall i :: lo <= i < hi ==> Finds(t, i, lo, hi)
    ensures Bisected(t, lo, hi)
    decreases hi - lo
  {
    hide Cmp, Finds, Unique;
    if lo < hi {
      var mid := lo + (hi - lo) / 2;
      FindsBelow(t, lo, mid, hi);
      FindsAbove(t, lo, mid, mid + 1, hi);
      FindsInOrder(t, lo, mid);
      FindsInOrder(t, mid + 1, hi);
    }
  }

  lemma FindsBelow(t: seq<Ref>, lo: nat, mid: nat, hi: nat)
    requires lo < hi <= |t| && mid == lo + (hi - lo) / 2 && Unique(t) && forall i :: 0 <= i < |t| ==> t[i].phandle < WORD
    requires forall i :: lo <= i < hi ==> Finds(t, i, lo, hi)
    ensures forall i :: lo <= i < mid ==> Cmp(t[mid].phandle, t[i].phandle) > 0
    ensures forall i :: lo <= i < mid ==> Finds(t, i, lo, mid)
  {
    hide Cmp, Finds, Unique;
    forall i | lo <= i < mid ensures Cmp(t[mid].phandle, t[i].phandle) > 0 && Finds(t, i, lo, mid) {
      FindStep(t, i, lo, hi);
    }
  }

  lemma FindsAbove(t: seq<Ref>, lo: nat, mid: nat, next: nat, hi: nat)
    requires lo < hi <= |t| && mid == lo + (hi - lo) / 2 && Unique(t) && forall i :: 0 <= i < |t| ==> t[i].phandle < WORD
    requires next == mid + 1 && forall i :: lo <= i < hi ==> Finds(t, i, lo, hi)
    ensures forall i :: mid < i < hi ==> Cmp(t[mid].phandle, t[i].phandle) < 0
    ensures forall i :: next <= i < hi ==> Finds(t, i, next, hi)
  {
    hide Cmp, Finds, Unique;
    forall i | mid < i < hi ensures Cmp(t[mid].phandle, t[i].phandle) < 0 && Finds(t, i, next, hi) {
      FindStep(t, i, lo, hi);
    }
  }

  // Whether the first step towards entry i goes to its side.
  predicate FindsHere(t: seq<Ref>, i: nat, lo: nat, hi: nat)
    requires lo <= i < hi <= |t|
  {
    var mid := lo + (hi - lo) / 2;
    Finds(t, i, lo, hi) <==>
      if i < mid then Cmp(t[mid].phandle, t[i].phandle) > 0 && Finds(t, i, lo, mid)
      else if i > mid then Cmp(t[mid].phandle, t[i].phandle) < 0 && Finds(t, i, mid + 1, hi)
      else true
  }

  lemma FindStep(t: seq<Ref>, i: nat, lo: nat, hi: nat)
    requires lo <= i < hi <= |t| && Unique(t) && forall j :: 0 <= j < |t| ==> t[j].phandle < WORD
    ensures FindsHere(t, i, lo, hi)
  {
    hide Cmp;
    var mid := lo + (hi - lo) / 2;
    CmpExact(t[mid].phandle, t[i].phandle);
  }

  // array_len_sorted_insert.
  function Inserted(t: seq<Ref>, r: Ref): seq<Ref> {
    var i := Search(t, r.phandle, 0, |t|).1;
    t[..i] + [r] + t[i..]
  }

  // It always adds exactly r, and keeps a table in a half circle sorted.
  lemma InsertedFacts(t: seq<Ref>, r: Ref)
    ensures multiset(Inserted(t, r)) == multiset(t) + multiset{r}
    ensures forall base :: AllInHalf(Inserted(t, r), base) <==> AllInHalf(t, base) && InHalf(r.phandle, base)
    ensures forall base :: AllInHalf(Inserted(t, r), base) && Sorted(t, base) ==> Sorted(Inserted(t, r), base)
  {
    hide Search, InHalf, Key;
    var i, n := Search(t, r.phandle, 0, |t|).1, Inserted(t, r);
    assert t == t[..i] + t[i..];
    forall base ensures AllInHalf(n, base) <==> AllInHalf(t, base) && InHalf(r.phandle, base) {
      InsertedHalf(t, i, r, base);
    }
    forall base | AllInHalf(n, base) && Sorted(t, base) ensures Sorted(n, base) {
      SearchFinds(t, r.phandle, base, 0, |t|);
    }
  }

  lemma InsertedHalf(t: seq<Ref>, i: nat, r: Ref, base: nat)
    requires i <= |t|
    ensures AllInHalf(t[..i] + [r] + t[i..], base) <==> AllInHalf(t, base) && InHalf(r.phandle, base)
  {
    hide InHalf;
    var n := t[..i] + [r] + t[i..];
    assert n[i] == r;
    assert forall j :: 0 <= j < i ==> n[j] == t[j];
    assert forall j :: i <= j < |t| ==> n[j + 1] == t[j];
  }

  // Below n, at the node itself or under one of its first i children.
  ghost predicate BelowFirst(strings: seq<nat>, n: Node, at: Path, i: nat, r: Ref) {
    Below(strings, n, at, r) && (r.path == at || r.path[|at|] < i)
  }

  lemma SelfFirst(strings: seq<nat>, n: Node, at: Path, r: Ref)
    ensures BelowFirst(strings, n, at, 0, r) <==> r.path == at && PhandleIn(strings, n.props) == Some(r.phandle)
  {
    hide HasPhandle, PhandleIn;
    PhandleIs(strings, n.props, r.phandle);
    if r.path == at {
      assert r.path[|at|..] == [];
    }
    if |at| <= |r.path| && r.path[..|at|] == at && r.path != at {
      assert |at| < |r.path|;
    }
  }

  lemma ChildStep(strings: seq<nat>, n: Node, at: Path, i: nat, r: Ref)
    requires i < |n.nodes|
    ensures BelowFirst(strings, n, at, i + 1, r) <==>
              BelowFirst(strings, n, at, i, r) || Below(strings, n.nodes[i], at + [i], r)
  {
    hide HasPhandle;
    if |at| < |r.path| && r.path[..|at|] == at && r.path[|at|] == i {
      assert r.path[..|at| + 1] == at + [i];
      assert r.path[|at|..][1..] == r.path[|at| + 1..];
    }
    if |at| < |r.path| && r.path[..|at| + 1] == at + [i] {
      assert r.path[..|at|] == r.path[..|at| + 1][..|at|] == at;
      assert r.path[|at|] == r.path[..|at| + 1][|at|] == i;
    }
  }

  lemma AllFirst(strings: seq<nat>, n: Node, at: Path, r: Ref)
    ensures BelowFirst(strings, n, at, |n.nodes|, r) <==> Below(strings, n, at, r)
  {
    hide HasPhandle;
    if Below(strings, n, at, r) && r.path != at {
      assert |r.path| > |at|;
      assert r.path[|at|..][0] == r.path[|at|];
    }
  }

  // dtb_build_refs, for the phandles: the node first, then its children in order.
  function Built(strings: seq<nat>, t: seq<Ref>, n: Node, at: Path): seq<Ref>
    decreases n, |n.nodes| + 1
  {
    BuiltUpTo(strings, t, n, at, |n.nodes|)
  }

  function BuiltUpTo(strings: seq<nat>, t: seq<Ref>, n: Node, at: Path, i: nat): seq<Ref>
    requires i <= |n.nodes|
    decreases n, i
  {
    if i > 0 then Built(strings, BuiltUpTo(strings, t, n, at, i - 1), n.nodes[i - 1], at + [i - 1])
    else
      var ph := PhandleIn(strings, n.props);
      if ph.Some? then Inserted(t, Ref(ph.value, at)) else t
  }

  // The table holds exactly the nodes that carry a phandle, and is sorted if they fit in a half circle.
  lemma {:induction false} BuiltTable(strings: seq<nat>, t: seq<Ref>, n: Node, at: Path)
    ensures Table(strings, n, at, t, Built(strings, t, n, at))
    ensures forall base :: AllInHalf(Built(strings, t, n, at), base) ==> AllInHalf(t, base)
    ensures forall base :: AllInHalf(Built(strings, t, n, at), base) && Sorted(t, base) ==> Sorted(Built(strings, t, n, at), base)
    decreases n, |n.nodes| + 1
  {
    hide Below, BelowFirst, AllInHalf, Sorted, BuiltUpTo;
    BuiltFirst(strings, t, n, at, |n.nodes|);
    forall r ensures BelowFirst(strings, n, at, |n.nodes|, r) <==> Below(strings, n, at, r) {
      AllFirst(strings, n, at, r);
    }
  }

  lemma {:induction false} BuiltFirst(strings: seq<nat>, t: seq<Ref>, n: Node, at: Path, i: nat)
    requires i <= |n.nodes|
    ensures var b := BuiltUpTo(strings, t, n, at, i);
      && (forall r :: r in b <==> r in t || BelowFirst(strings, n, at, i, r))
      && (forall base :: AllInHalf(b, base) ==> AllInHalf(t, base))
      && (forall base :: AllInHalf(b, base) && Sorted(t, base) ==> Sorted(b, base))
    decreases n, i
  {
    hide Below, BelowFirst, AllInHalf, Sorted, PhandleIn, Inserted, Built;
    if i > 0 {
      BuiltFirst(strings, t, n, at, i - 1);
      var was := BuiltUpTo(strings, t, n, at, i - 1);
      BuiltTable(strings, was, n.nodes[i - 1], at + [i - 1]);
      forall r ensures BelowFirst(strings, n, at, i, r) <==> BelowFirst(strings, n, at, i - 1, r) || Below(strings, n.nodes[i - 1], at + [i - 1], r) {
        ChildStep(strings, n, at, i - 1, r);
      }
    } else {
      forall r ensures BelowFirst(strings, n, at, 0, r) <==> r.path == at && PhandleIn(strings, n.props) == Some(r.phandle) {
        SelfFirst(strings, n, at, r);
      }
      var ph := PhandleIn(strings, n.props);
      if ph.Some? {
        var x := Ref(ph.value, at);
        InsertedFacts(t, x);
        forall r ensures r in Inserted(t, x) <==> r in t || r == x {
          InMultiset(Inserted(t, x), t, x, r);
        }
      }
    }
  }

  lemma InMultiset(n: seq<Ref>, t: seq<Ref>, x: Ref, r: Ref)
    requires multiset(n) == multiset(t) + multiset{x}
    ensures r in n <==> r in t || r == x
  {
    assert r in n <==> r in multiset(n);
    assert r in t <==> r in multiset(t);
  }

  // The phandles of the tree fit in a half circle.
  ghost predicate HalfTree(strings: seq<nat>, root: Node, base: nat) {
    forall path, q :: Carries(strings, root, path, q) ==> InHalf(q, base)
  }

  // dtb_phandle_node.
  function Lookup(t: seq<Ref>, ph: nat): Option<Path> {
    var r := Search(t, ph, 0, |t|);
    if r.0 then Some(t[r.1].path) else None
  }

  lemma TableRefs(strings: seq<nat>, root: Node, path: Path, ph: nat)
    ensures Carries(strings, root, path, ph) <==> Ref(ph, path) in Built(strings, [], root, [])
  {
    hide Carries, Built;
    BuiltTable(strings, [], root, []);
    assert path[0..] == path;
    assert Below(strings, root, [], Ref(ph, path)) <==> Carries(strings, root, path, ph);
  }

  // What is returned carries the phandle.
  lemma LookupSound(strings: seq<nat>, root: Node, ph: nat)
    requires ph < WORD
    ensures var r := Lookup(Built(strings, [], root, []), ph); r.Some? ==> Carries(strings, root, r.value, ph)
  {
    hide Carries, Built, Search, Cmp;
    var t := Built(strings, [], root, []);
    var r := Search(t, ph, 0, |t|);
    if r.0 {
      var x := t[r.1];
      assert x in t && x == Ref(x.phandle, x.path);
      TableRefs(strings, root, x.path, x.phandle);
      CarriedFits(strings, root, x.path, x.phandle);
      CmpExact(x.phandle, ph);
    }
  }

  lemma CarriedFits(strings: seq<nat>, root: Node, path: Path, ph: nat)
    requires Carries(strings, root, path, ph)
    ensures ph < WORD
  {
  }

  // If the phandles fit in a half circle, one is returned if there is one.
  lemma LookupComplete(strings: seq<nat>, root: Node, ph: nat, base: nat)
    requires HalfTree(strings, root, base)
    ensures Lookup(Built(strings, [], root, []), ph).None? ==> forall path :: !Carries(strings, root, path, ph)
  {
    hide Carries, Built, Search, InHalf, Key;
    var t := Built(strings, [], root, []);
    forall i | 0 <= i < |t| ensures InHalf(t[i].phandle, base) {
      assert t[i] in t && t[i] == Ref(t[i].phandle, t[i].path);
      TableRefs(strings, root, t[i].path, t[i].phandle);
    }
    BuiltTable(strings, [], root, []);
    forall path | Carries(strings, root, path, ph) ensures Search(t, ph, 0, |t|).0 {
      TableRefs(strings, root, path, ph);
      SearchFinds(t, ph, base, 0, |t|);
    }
  }

  // Every carried phandle leads to its node, if and only if bisection meets the table in order; the
  // table must not hold a phandle twice.
  lemma LookupExact(strings: seq<nat>, root: Node)
    requires Unique(Built(strings, [], root, []))
    ensures var t := Built(strings, [], root, []);
      (forall path, ph :: Carries(strings, root, path, ph) ==> Lookup(t, ph) == Some(path)) <==> Bisected(t, 0, |t|)
  {
    hide Carries, Built, Search, Bisected, Unique;
    var t := Built(strings, [], root, []);
    forall i | 0 <= i < |t|
      ensures Carries(strings, root, t[i].path, t[i].phandle) && t[i].phandle < WORD
    {
      assert t[i] in t && t[i] == Ref(t[i].phandle, t[i].path);
      TableRefs(strings, root, t[i].path, t[i].phandle);
      CarriedFits(strings, root, t[i].path, t[i].phandle);
    }
    forall i | 0 <= i < |t| ensures Lookup(t, t[i].phandle) == Some(t[i].path) <==> Finds(t, i, 0, |t|) {
      LookupFinds(t, i);
    }
    forall path, ph | Carries(strings, root, path, ph) ensures Ref(ph, path) in t {
      TableRefs(strings, root, path, ph);
    }
    SearchExact(t);
  }

  lemma LookupFinds(t: seq<Ref>, i: nat)
    requires Unique(t) && i < |t| && forall j :: 0 <= j < |t| ==> t[j].phandle < WORD
    ensures Lookup(t, t[i].phandle) == Some(t[i].path) <==> Finds(t, i, 0, |t|)
  {
    hide Search, Cmp;
    var r := Search(t, t[i].phandle, 0, |t|);
    if r.0 {
      CmpExact(t[r.1].phandle, t[i].phandle);
    }
  }

  // ---------------------------------------------------------------- phandles half a circle apart

  function Carrier(ph: nat): Node { Node([], [Prop(0, 4, [ph])], []) }

  // Two children, with phandles 1 and 0x80000001: the first is in the table and is not found.
  lemma FarLost()
    ensures var root := Node([], [], [Carrier(1), Carrier(0x8000_0001)]);
      && Carries(PHANDLE, root, [0], 1)
      && Lookup(Built(PHANDLE, [], root, []), 1) == None
  {
    hide PhandleIn, HasPhandle, Carrier, Built;
    var root := Node([], [], [Carrier(1), Carrier(0x8000_0001)]);
    CarrierIs(1);
    PhandleIs(PHANDLE, Carrier(1).props, 1);
    assert [0][1..] == [];
    FarTable(root);
  }

  lemma CarrierIs(ph: nat)
    requires ph == 1 || ph == 0x8000_0001
    ensures PhandleIn(PHANDLE, Carrier(ph).props) == Some(ph) && Carrier(ph).nodes == []
  {
    var p := Prop(0, 4, [ph]);
    assert PHANDLE[0..8] == PHANDLE;
    assert ReadUint(p, 1) == ph / 0x100_0000;
    assert ReadUint(p, 2) == ph / 0x1_0000;
    assert ReadUint(p, 3) == ph / 0x100;
    assert ReadUint(p, 4) == ph;
  }

  lemma FarTable(root: Node)
    requires root == Node([], [], [Carrier(1), Carrier(0x8000_0001)])
    ensures Built(PHANDLE, [], root, []) == [Ref(1, [0]), Ref(0x8000_0001, [1])]
  {
    hide PhandleIn, Carrier;
    var near, far := Ref(1, [0]), Ref(0x8000_0001, [1]);
    assert PhandleIn(PHANDLE, []) == None by { NoPhandle(PHANDLE); }
    assert BuiltUpTo(PHANDLE, [], root, [], 0) == [];
    CarrierIs(1);
    assert Inserted([], near) == [near];
    assert [] + [0] == [0];
    assert BuiltUpTo(PHANDLE, [], root, [], 1) == Built(PHANDLE, [], Carrier(1), [0]) == [near];
    CarrierIs(0x8000_0001);
    assert Cmp(1, 0x8000_0001) < 0;
    assert Search([near], far.phandle, 0, 1) == Search([near], far.phandle, 1, 1) == (false, 1);
    assert Inserted([near], far) == [near, far];
    assert [] + [1] == [1];
    assert BuiltUpTo(PHANDLE, [], root, [], 2) == Built(PHANDLE, [near], Carrier(0x8000_0001), [1]) == [near, far];
  }

  lemma NoPhandle(strings: seq<nat>)
    ensures PhandleIn(strings, []) == None
  {
  }

  class Handle {
    const strings: seq<nat>
    var phandles: seq<Ref>

    constructor (blk: seq<nat>)
      ensures strings == blk && phandles == []
    {
      strings := blk;
      phandles := [];
    }

    // array_len_sorted_insert.
    method Insert(r: Ref)
      modifies this
      ensures phandles == Inserted(old(phandles), r)
    {
      var found, i := BinSearch(phandles, r.phandle);
      phandles := phandles[..i] + [r] + phandles[i..];
    }

    // dtb_build_refs.
    method BuildRefs(n: Node, at: Path)
      modifies this
      ensures phandles == Built(strings, old(phandles), n, at)
      ensures Table(strings, n, at, old(phandles), phandles)
      ensures forall base :: AllInHalf(phandles, base) && Sorted(old(phandles), base) ==> Sorted(phandles, base)
      decreases n
    {
      hide PhandleIn, Inserted, Table, AllInHalf, Sorted;
      BuiltTable(strings, phandles, n, at);
      var ph := PhandleIn(strings, n.props);
      if ph.Some? {
        Insert(Ref(ph.value, at));
      }
      for i := 0 to |n.nodes|
        invariant phandles == BuiltUpTo(strings, old(phandles), n, at, i)
      {
        BuildRefs(n.nodes[i], at + [i]);
      }
    }

    // dtb_phandle_node: the node it returns carries the phandle; it returns one if there is one, on
    // every tree whose phandles fit in a half circle.
    method PhandleNode(ph: nat, ghost root: Node) returns (r: Option<Path>)
      requires phandles == Built(strings, [], root, []) && ph < WORD
      ensures r == Lookup(phandles, ph)
      ensures r.Some? ==> Carries(strings, root, r.value, ph)
      ensures (exists base :: HalfTree(strings, root, base)) && r.None? ==> forall path :: !Carries(strings, root, path, ph)
    {
      hide Carries, Built, HalfTree;
      LookupSound(strings, root, ph);
      forall base | HalfTree(strings, root, base)
        ensures Lookup(phandles, ph).None? ==> forall path :: !Carries(strings, root, path, ph)
      {
        LookupComplete(strings, root, ph, base);
      }
      var found, i := BinSearch(phandles, ph);
      if found {
        return Some(phandles[i].path);
      }
      return None;
    }
  }
}
