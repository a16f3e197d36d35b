// The flattened devicetree parser of dtb.c, over the structure block as a sequence of (big-endian
// decoded) words.  Reading past the block, which the parser does not check, is the outcome Overrun.
module Devicetree {
  const BEGIN_NODE := 1
  const END_NODE := 2
  const PROP := 3
  const NOP := 4
  const END := 9

  datatype Prop = Prop(nameOff: nat, len: nat, content: seq<nat>)

  datatype Node = Node(name: seq<nat>, props: seq<Prop>, nodes: seq<Node>)

  datatype Result<T> = Ok(value: T, next: nat) | NoMatch | Overrun

  // (content_len + 3) / 4 on 32-bit words.
  function PaddedWords(len: nat): nat { (len + 3) % 0x1_0000_0000 / 4 }

  // The longest length that does not wrap.
  const MAX_LEN := 0xFFFF_FFFC

  // It is the length in whole words, except that the last three lengths wrap to nothing.
  lemma PaddedExact(len: nat)
    ensures PaddedWords(len) == (len + 3) / 4 <==> len <= MAX_LEN
    ensures MAX_LEN < len < 0x1_0000_0000 ==> PaddedWords(len) == 0
  {
  }

  // Byte i of the memory that starts at word a.
  function Byte(w: seq<nat>, a: nat, i: nat): nat
    requires a + i / 4 < |w|
  {
    var x := w[a + i / 4];
    if i % 4 == 0 then x / 0x100_0000 % 256 else if i % 4 == 1 then x / 0x1_0000 % 256
    else if i % 4 == 2 then x / 0x100 % 256 else x % 256
  }

  // ---------------------------------------------------------------- flattenings

  // The tokens are those of section 5.4.1 of the Devicetree Specification v0.4: 1 begins a node, 2 ends it,
  // 3 is a property, 4 does nothing and 9 ends the block.
  ghost predicate Nops(w: seq<nat>, o: nat, k: nat) {
    o <= k <= |w| && forall j :: o <= j < k ==> w[j] == 4
  }

  // A zero-terminated name, padded to words.
  ghost predicate FlatName(w: seq<nat>, a: nat, e: nat, name: seq<nat>) {
    && e == a + |name| / 4 + 1 && e <= |w|
    && (forall i :: 0 <= i < |name| ==> name[i] != 0 && Byte(w, a, i) == name[i])
    && Byte(w, a, |name|) == 0
  }

  // Words [o, e) of w flatten the property p: NOPs, a token, length, name offset and content.
  ghost predicate FlatProp(w: seq<nat>, o: nat, e: nat, p: Prop) {
    exists k: nat :: Nops(w, o, k) && PropHere(w, k, e, p)
  }

  ghost predicate PropHere(w: seq<nat>, k: nat, e: nat, p: Prop) {
    && k + 3 + (p.len + 3) / 4 == e && e <= |w|
    && w[k] == 3 && w[k + 1] == p.len && w[k + 2] == p.nameOff && w[k + 3..e] == p.content
  }

  ghost predicate FlatProps(w: seq<nat>, o: nat, e: nat, ps: seq<Prop>)
    decreases |ps|
  {
    if ps == [] then o == e
    else exists m: nat :: FlatProp(w, o, m, ps[0]) && FlatProps(w, m, e, ps[1..])
  }

  // NOPs, a token, the name, properties, nodes, NOPs and the closing token.
  ghost predicate FlatNode(w: seq<nat>, o: nat, e: nat, n: Node)
    decreases n, 1
  {
    exists k: nat, a: nat, b: nat, c: nat, d: nat :: NodeHere(w, o, e, n, k, a, b, c, d)
  }

  ghost predicate NodeHere(w: seq<nat>, o: nat, e: nat, n: Node, k: nat, a: nat, b: nat, c: nat, d: nat)
    decreases n, 0
  {
    && Nops(w, o, k) && k < |w| && w[k] == 1
    && FlatName(w, k + 1, a, n.name) && FlatProps(w, a, b, n.props) && FlatNodes(w, b, c, n.nodes)
    && Nops(w, c, d) && d < |w| && w[d] == 2 && e == d + 1
  }

  ghost predicate FlatNodes(w: seq<nat>, o: nat, e: nat, ns: seq<Node>)
    decreases ns
  {
    if ns == [] then o == e
    else exists m: nat :: FlatNode(w, o, m, ns[0]) && FlatNodes(w, m, e, ns[1..])
  }

  // Every length in the tree is one that does not wrap.
  ghost predicate SmallNode(n: Node) {
    SmallProps(n.props) && forall i :: 0 <= i < |n.nodes| ==> SmallNode(n.nodes[i])
  }

  ghost predicate SmallProps(ps: seq<Prop>) { forall i :: 0 <= i < |ps| ==> ps[i].len <= MAX_LEN }

  ghost predicate SmallNodes(ns: seq<Node>) { forall i :: 0 <= i < |ns| ==> SmallNode(ns[i]) }

  // ---------------------------------------------------------------- the parser

  function Skip(w: seq<nat>, o: nat): (k: nat)
    ensures o <= k && (o <= |w| ==> Nops(w, o, k)) && (k < |w| ==> w[k] != NOP)
    decreases |w| - o
  {
    if o < |w| && w[o] == NOP then Skip(w, o + 1) else o
  }

  // The length of the string at word a, or None if it leaves the block.
  function NameLength(w: seq<nat>, a: nat, i: nat): (r: Result<nat>)
    ensures r.Ok? ==> i <= r.value && a + r.value / 4 < |w| && Byte(w, a, r.value) == 0
    ensures r.Ok? ==> forall j :: i <= j < r.value ==> Byte(w, a, j) != 0
    ensures !r.NoMatch? && (r.Ok? ==> r.next == a + r.value / 4 + 1)
    decreases 4 * (|w| - a) - i
  {
    if a + i / 4 >= |w| then Overrun
    else if Byte(w, a, i) == 0 then Ok(i, a + i / 4 + 1)
    else NameLength(w, a, i + 1)
  }

  function ParseProp(w: seq<nat>, o: nat): (r: Result<Prop>)
    ensures r.Ok? ==> o < r.next <= |w|
  {
    var k := Skip(w, o);
    if k >= |w| then Overrun
    else if w[k] != PROP then NoMatch
    else if k + 3 > |w| || k + 3 + PaddedWords(w[k + 1]) > |w| then Overrun
    else
      var e := k + 3 + PaddedWords(w[k + 1]);
      Ok(Prop(w[k + 2], w[k + 1], w[k + 3..e]), e)
  }

  function ParseProps(w: seq<nat>, o: nat): (r: Result<seq<Prop>>)
    ensures !r.NoMatch? && (r.Ok? ==> o <= r.next < |w|)
    decreases |w| - o
  {
    match ParseProp(w, o)
    case Overrun => Overrun
    case NoMatch => Ok([], o)
    case Ok(p, m) =>
      match ParseProps(w, m)
      case Ok(ps, e) => Ok([p] + ps, e)
      case _ => Overrun
  }

  function ParseNode(w: seq<nat>, o: nat): (r: Result<Node>)
    ensures r.Ok? ==> o < r.next <= |w|
    decreases |w| - o, 1
  {
    var k := Skip(w, o);
    if k >= |w| then Overrun
    else if w[k] != BEGIN_NODE then NoMatch
    else
      match NameLength(w, k + 1, 0)
      case Ok(len, a) =>
        (match ParseProps(w, a)
         case Ok(ps, b) =>
           (match ParseNodes(w, b)
            case Ok(ns, c) =>
              var d := Skip(w, c);
              if d >= |w| then Overrun
              else if w[d] != END_NODE then NoMatch
              else Ok(Node(Text(w, k + 1, len), ps, ns), d + 1)
            case _ => Overrun)
         case _ => Overrun)
      case _ => Overrun
  }

  function ParseNodes(w: seq<nat>, o: nat): (r: Result<seq<Node>>)
    ensures !r.NoMatch? && (r.Ok? ==> o <= r.next < |w|)
    decreases |w| - o, 2
  {
    match ParseNode(w, o)
    case Overrun => Overrun
    case NoMatch => Ok([], o)
    case Ok(n, m) =>
      match ParseNodes(w, m)
      case Ok(ns, e) => Ok([n] + ns, e)
      case _ => Overrun
  }

  function Text(w: seq<nat>, a: nat, len: nat): seq<nat>
    requires len == 0 || a + (len - 1) / 4 < |w|
  {
    seq(len, i requires 0 <= i < len => Byte(w, a, i))
  }

  // ---------------------------------------------------------------- what is accepted is a flattening

  lemma PropSound(w: seq<nat>, o: nat)
    ensures var r := ParseProp(w, o); r.Ok? && r.value.len <= MAX_LEN ==> FlatProp(w, o, r.next, r.value)
  {
    hide PaddedWords;
    var r := ParseProp(w, o);
    if r.Ok? && r.value.len <= MAX_LEN {
      PaddedExact(r.value.len);
      assert PropHere(w, Skip(w, o), r.next, r.value);
    }
  }

  lemma {:induction false} PropsSound(w: seq<nat>, o: nat)
    ensures var r := ParseProps(w, o); r.Ok? && SmallProps(r.value) ==> FlatProps(w, o, r.next, r.value)
    decreases |w| - o
  {
    hide FlatProp, ParseProp;
    PropSound(w, o);
    var r := ParseProps(w, o);
    if r.Ok? && ParseProp(w, o).Ok? && SmallProps(r.value) {
      var m := ParseProp(w, o).next;
      PropsSound(w, m);
      assert r.value[1..] == ParseProps(w, m).value;
      assert FlatProp(w, o, m, r.value[0]) && FlatProps(w, m, r.next, r.value[1..]);
    }
  }

  lemma NameSound(w: seq<nat>, a: nat)
    ensures var r := NameLength(w, a, 0); r.Ok? ==> FlatName(w, a, r.next, Text(w, a, r.value))
  {
    hide Byte;
  }

  lemma {:induction false} NodeSound(w: seq<nat>, o: nat)
    ensures var r := ParseNode(w, o); r.Ok? && SmallNode(r.value) ==> FlatNode(w, o, r.next, r.value)
    decreases |w| - o, 1
  {
    hide ParseProps, ParseNodes, FlatProps, FlatName, NameLength, Text;
    var r := ParseNode(w, o);
    if r.Ok? && SmallNode(r.value) {
      var k := Skip(w, o);
      NameSound(w, k + 1);
      var a := NameLength(w, k + 1, 0).next;
      PropsSound(w, a);
      var b := ParseProps(w, a).next;
      NodesSound(w, b);
      var c := ParseNodes(w, b).next;
      assert NodeHere(w, o, r.next, r.value, k, a, b, c, Skip(w, c));
    }
  }

  lemma {:induction false} NodesSound(w: seq<nat>, o: nat)
    ensures var r := ParseNodes(w, o); r.Ok? && SmallNodes(r.value) ==> FlatNodes(w, o, r.next, r.value)
    decreases |w| - o, 2
  {
    hide FlatNode, ParseNode;
    NodeSound(w, o);
    var r := ParseNodes(w, o);
    if r.Ok? && ParseNode(w, o).Ok? && SmallNodes(r.value) {
      var m := ParseNode(w, o).next;
      NodesSound(w, m);
      assert r.value[1..] == ParseNodes(w, m).value;
      assert FlatNode(w, o, m, r.value[0]) && FlatNodes(w, m, r.next, r.value[1..]);
    }
  }

  // ---------------------------------------------------------------- every flattening is accepted

  lemma {:induction false} SkipIs(w: seq<nat>, o: nat, k: nat)
    requires Nops(w, o, k) && k < |w| && w[k] != NOP
    ensures Skip(w, o) == k
    decreases k - o
  {
    if o < k {
      SkipIs(w, o + 1, k);
    }
  }

  lemma PropComplete(w: seq<nat>, o: nat, e: nat, p: Prop)
    requires FlatProp(w, o, e, p) && p.len <= MAX_LEN
    ensures ParseProp(w, o) == Ok(p, e)
  {
    hide PaddedWords;
    PaddedExact(p.len);
    var k: nat :| Nops(w, o, k) && PropHere(w, k, e, p);
    SkipIs(w, o, k);
  }

  lemma {:induction false} PropsComplete(w: seq<nat>, o: nat, e: nat, ps: seq<Prop>)
    requires FlatProps(w, o, e, ps) && SmallProps(ps) && ParseProp(w, e) == NoMatch
    ensures ParseProps(w, o) == Ok(ps, e)
    decreases |ps|
  {
    hide FlatProp, ParseProp;
    if ps != [] {
      var m: nat :| FlatProp(w, o, m, ps[0]) && FlatProps(w, m, e, ps[1..]);
      PropComplete(w, o, m, ps[0]);
      PropsComplete(w, m, e, ps[1..]);
      assert [ps[0]] + ps[1..] == ps;
    }
  }

  lemma {:induction false} NameLengthIs(w: seq<nat>, a: nat, i: nat, n: nat)
    requires i <= n && a + n / 4 < |w| && Byte(w, a, n) == 0 && forall j :: i <= j < n ==> Byte(w, a, j) != 0
    ensures NameLength(w, a, i) == Ok(n, a + n / 4 + 1)
    decreases n - i
  {
    hide Byte;
    if i < n {
      NameLengthIs(w, a, i + 1, n);
    }
  }

  lemma NameComplete(w: seq<nat>, a: nat, e: nat, name: seq<nat>)
    requires FlatName(w, a, e, name)
    ensures NameLength(w, a, 0) == Ok(|name|, e) && Text(w, a, |name|) == name
  {
    hide Byte;
    NameLengthIs(w, a, 0, |name|);
  }

  // After NOPs comes a token that is not a property.
  lemma NoProp(w: seq<nat>, o: nat, k: nat)
    requires Nops(w, o, k) && k < |w| && w[k] != NOP && w[k] != PROP
    ensures ParseProp(w, o) == NoMatch
  {
    SkipIs(w, o, k);
  }

  lemma NoNode(w: seq<nat>, o: nat, k: nat)
    requires Nops(w, o, k) && k < |w| && w[k] != NOP && w[k] != BEGIN_NODE
    ensures ParseNode(w, o) == NoMatch
  {
    SkipIs(w, o, k);
  }

  lemma NodeBegins(w: seq<nat>, o: nat, e: nat, n: Node) returns (k: nat)
    requires FlatNode(w, o, e, n)
    ensures Nops(w, o, k) && k < |w| && w[k] == BEGIN_NODE
  {
    hide FlatProps, FlatName;
    var i: nat, a: nat, b: nat, c: nat, d: nat :| NodeHere(w, o, e, n, i, a, b, c, d);
    k := i;
  }

  lemma PropsEnd(w: seq<nat>, b: nat, c: nat, d: nat, ns: seq<Node>)
    requires FlatNodes(w, b, c, ns) && Nops(w, c, d) && d < |w| && w[d] == END_NODE
    ensures ParseProp(w, b) == NoMatch
  {
    hide ParseProp, FlatNode;
    if ns == [] {
      NoProp(w, b, d);
    } else {
      var m: nat :| FlatNode(w, b, m, ns[0]) && FlatNodes(w, m, c, ns[1..]);
      var k := NodeBegins(w, b, m, ns[0]);
      NoProp(w, b, k);
    }
  }

  lemma {:induction false} NodeComplete(w: seq<nat>, o: nat, e: nat, n: Node)
    requires FlatNode(w, o, e, n) && SmallNode(n)
    ensures ParseNode(w, o) == Ok(n, e)
    decreases n, 1
  {
    hide ParseProps, ParseNodes, FlatProps, FlatNodes, FlatName, NameLength, Text, ParseProp;
    var k: nat, a: nat, b: nat, c: nat, d: nat :| NodeHere(w, o, e, n, k, a, b, c, d);
    SkipIs(w, o, k);
    NameComplete(w, k + 1, a, n.name);
    PropsEnd(w, b, c, d, n.nodes);
    PropsComplete(w, a, b, n.props);
    NoNode(w, c, d);
    NodesComplete(w, b, c, n.nodes);
    SkipIs(w, c, d);
  }

  lemma {:induction false} NodesComplete(w: seq<nat>, o: nat, e: nat, ns: seq<Node>)
    requires FlatNodes(w, o, e, ns) && SmallNodes(ns) && ParseNode(w, e) == NoMatch
    ensures ParseNodes(w, o) == Ok(ns, e)
    decreases ns
  {
    hide FlatNode, ParseNode;
    if ns != [] {
      var m: nat :| FlatNode(w, o, m, ns[0]) && FlatNodes(w, m, e, ns[1..]);
      NodeComplete(w, o, m, ns[0]);
      NodesComplete(w, m, e, ns[1..]);
      assert [ns[0]] + ns[1..] == ns;
    }
  }

  // ---------------------------------------------------------------- lengths that wrap

  // No flattening whose size in bytes fits 32 bits has them.
  const MAX_WORDS := 0x4000_0000

  lemma {:induction false} FlatSmallProps(w: seq<nat>, o: nat, e: nat, ps: seq<Prop>)
    requires FlatProps(w, o, e, ps) && |w| <= MAX_WORDS
    ensures SmallProps(ps)
    decreases |ps|
  {
    if ps != [] {
      var m: nat :| FlatProp(w, o, m, ps[0]) && FlatProps(w, m, e, ps[1..]);
      var k: nat :| Nops(w, o, k) && PropHere(w, k, m, ps[0]);
      FlatSmallProps(w, m, e, ps[1..]);
      assert forall i :: 0 < i < |ps| ==> ps[i] == ps[1..][i - 1];
    }
  }

  lemma {:induction false} FlatSmall(w: seq<nat>, o: nat, e: nat, n: Node)
    requires FlatNode(w, o, e, n) && |w| <= MAX_WORDS
    ensures SmallNode(n)
    decreases n, 1
  {
    hide FlatProps, FlatName;
    var k: nat, a: nat, b: nat, c: nat, d: nat :| NodeHere(w, o, e, n, k, a, b, c, d);
    FlatSmallProps(w, a, b, n.props);
    FlatSmallNodes(w, b, c, n.nodes);
  }

  lemma {:induction false} FlatSmallNodes(w: seq<nat>, o: nat, e: nat, ns: seq<Node>)
    requires FlatNodes(w, o, e, ns) && |w| <= MAX_WORDS
    ensures SmallNodes(ns)
    decreases ns
  {
    hide FlatNode, SmallNode;
    if ns != [] {
      var m: nat :| FlatNode(w, o, m, ns[0]) && FlatNodes(w, m, e, ns[1..]);
      FlatSmall(w, o, m, ns[0]);
      FlatSmallNodes(w, m, e, ns[1..]);
      assert forall i :: 0 < i < |ns| ==> ns[i] == ns[1..][i - 1];
    }
  }

  // The parser accepts exactly the flattenings, consumes exactly their words and returns their tree,
  // but for trees with a length that wraps.
  lemma ParsesExactly(w: seq<nat>, o: nat, e: nat, n: Node)
    ensures ParseNode(w, o) == Ok(n, e) && SmallNode(n) <==> FlatNode(w, o, e, n) && SmallNode(n)
    ensures |w| <= MAX_WORDS ==> (ParseNode(w, o) == Ok(n, e) && SmallNode(n) <==> FlatNode(w, o, e, n))
  {
    hide ParseNode, FlatNode, SmallNode;
    if FlatNode(w, o, e, n) && |w| <= MAX_WORDS {
      FlatSmall(w, o, e, n);
    }
    if FlatNode(w, o, e, n) && SmallNode(n) {
      NodeComplete(w, o, e, n);
    }
    NodeSound(w, o);
  }

  // What is accepted is a flattening if and only if no length in the returned tree wraps.
  lemma AcceptedExactly(w: seq<nat>, o: nat)
    requires |w| <= MAX_WORDS && ParseNode(w, o).Ok?
    ensures var r := ParseNode(w, o); FlatNode(w, o, r.next, r.value) <==> SmallNode(r.value)
    ensures (exists e: nat, n :: FlatNode(w, o, e, n)) <==> SmallNode(ParseNode(w, o).value)
  {
    hide ParseNode, FlatNode, SmallNode;
    var r := ParseNode(w, o);
    forall e: nat, n | FlatNode(w, o, e, n) ensures SmallNode(n) && r == Ok(n, e) {
      FlatSmall(w, o, e, n);
      NodeComplete(w, o, e, n);
    }
    NodeSound(w, o);
  }

  // No word from o on is a length that wraps.
  ghost predicate SmallWords(w: seq<nat>, o: nat) { forall k :: o <= k < |w| ==> w[k] <= MAX_LEN }

  lemma {:induction false} PropsSmall(w: seq<nat>, o: nat)
    requires SmallWords(w, o)
    ensures var r := ParseProps(w, o); r.Ok? ==> SmallProps(r.value)
    decreases |w| - o
  {
    hide PaddedWords;
    if ParseProp(w, o).Ok? {
      PropsSmall(w, ParseProp(w, o).next);
    }
  }

  lemma {:induction false} NodeSmall(w: seq<nat>, o: nat)
    requires SmallWords(w, o)
    ensures var r := ParseNode(w, o); r.Ok? ==> SmallNode(r.value)
    decreases |w| - o, 1
  {
    hide ParseProps, ParseNodes, Text;
    if ParseNode(w, o).Ok? {
      var k := Skip(w, o);
      var a := NameLength(w, k + 1, 0).next;
      PropsSmall(w, a);
      NodesSmall(w, ParseProps(w, a).next);
    }
  }

  lemma {:induction false} NodesSmall(w: seq<nat>, o: nat)
    requires SmallWords(w, o)
    ensures var r := ParseNodes(w, o); r.Ok? ==> SmallNodes(r.value)
    decreases |w| - o, 2
  {
    hide ParseNode, SmallNode;
    NodeSmall(w, o);
    if ParseNode(w, o).Ok? {
      NodesSmall(w, ParseNode(w, o).next);
    }
  }

  // So a block without such words is accepted if and only if it is a flattening.
  lemma SmallInput(w: seq<nat>, o: nat)
    requires |w| <= MAX_WORDS && SmallWords(w, o)
    ensures forall e: nat, n :: ParseNode(w, o) == Ok(n, e) <==> FlatNode(w, o, e, n)
  {
    hide ParseNode, FlatNode, SmallNode;
    NodeSmall(w, o);
    forall e: nat, n ensures ParseNode(w, o) == Ok(n, e) <==> FlatNode(w, o, e, n) {
      ParsesExactly(w, o, e, n);
    }
  }

  // A root with one property of 4 GiB - 1 bytes and no content.
  const WRAPPING: seq<nat> := [BEGIN_NODE, 0, PROP, 0xFFFF_FFFF, 0, END_NODE, END]

  // It is accepted, and no tree flattens to it.
  lemma WrappingAccepted()
    ensures ParseNode(WRAPPING, 0) == Ok(Node([], [Prop(0, 0xFFFF_FFFF, [])], []), 6)
    ensures forall e: nat, n :: !FlatNode(WRAPPING, 0, e, n)
  {
    hide FlatNode;
    var w := WRAPPING;
    assert NameLength(w, 1, 0) == Ok(0, 2);
    assert Skip(w, 2) == 2 && w[5..5] == [];
    assert ParseProp(w, 2).Ok?;
    assert Skip(w, 5) == 5;
    assert ParseProps(w, 5) == Ok([], 5);
    var p := Prop(0, 0xFFFF_FFFF, []);
    assert [p] + ParseProps(w, 5).value == [p];
    assert ParseProps(w, 2) == Ok([p], 5);
    assert ParseNode(w, 5) == NoMatch;
    assert ParseNodes(w, 5) == Ok([], 5);
    assert Text(w, 1, 0) == [];
    assert ParseNode(w, 0).value.props[0].len > MAX_LEN;
    AcceptedExactly(w, 0);
  }

  // ---------------------------------------------------------------- the loops

  method SkipNops(w: seq<nat>, offset: nat) returns (k: nat)
    ensures k == Skip(w, offset)
  {
    k := offset;
    while k < |w| && w[k] == NOP
      invariant offset <= k && Skip(w, k) == Skip(w, offset)
    {
      k := k + 1;
    }
  }

  // dtb_parse_prop: on failure the offset stays.
  method PropAt(w: seq<nat>, offset: nat) returns (r: Result<Prop>, next: nat)
    ensures r == ParseProp(w, offset)
    ensures next == if r.Ok? then r.next else offset
  {
    hide PaddedWords;
    next := offset;
    var k := SkipNops(w, offset);
    if k >= |w| {
      return Overrun, next;
    }
    if w[k] != PROP {
      return NoMatch, next;
    }
    if k + 3 > |w| || k + 3 + PaddedWords(w[k + 1]) > |w| {
      return Overrun, next;
    }
    next := k + 3 + PaddedWords(w[k + 1]);
    r := Ok(Prop(w[k + 2], w[k + 1], w[k + 3..next]), next);
  }

  method NameAt(w: seq<nat>, a: nat) returns (r: Result<nat>)
    ensures r == NameLength(w, a, 0)
  {
    hide Byte;
    var i := 0;
    while a + i / 4 < |w| && Byte(w, a, i) != 0
      invariant NameLength(w, a, i) == NameLength(w, a, 0)
      decreases 4 * (|w| - a) - i
    {
      i := i + 1;
    }
    r := if a + i / 4 < |w| then Ok(i, a + i / 4 + 1) else Overrun;
  }

  function Room(w: seq<nat>, o: nat): nat { if o <= |w| then |w| - o else 0 }

  function Prepend<T>(s: seq<T>, r: Result<seq<T>>): Result<seq<T>> {
    if r.Ok? then Ok(s + r.value, r.next) else r
  }

  // The property loop of dtb_parse_node.
  method PropsAt(w: seq<nat>, offset: nat) returns (r: Result<seq<Prop>>)
    ensures r == ParseProps(w, offset)
  {
    hide ParseProp;
    var props, o := [], offset;
    PrependNone(ParseProps(w, offset));
    while true
      invariant offset <= o && ParseProps(w, offset) == Prepend(props, ParseProps(w, o))
      decreases |w| - o
    {
      var p, next := PropAt(w, o);
      if p.Overrun? {
        return Overrun;
      }
      if p.NoMatch? {
        assert props + [] == props;
        return Ok(props, o);
      }
      PrependMore(props, p.value, ParseProps(w, next));
      props := props + [p.value];
      o := next;
    }
  }

  lemma PrependNone<T>(r: Result<seq<T>>)
    ensures Prepend([], r) == r
  {
    if r.Ok? {
      assert [] + r.value == r.value;
    }
  }

  lemma PrependMore<T>(s: seq<T>, x: T, r: Result<seq<T>>)
    ensures r.Ok? ==> Prepend(s, Ok([x] + r.value, r.next)) == Prepend(s + [x], r)
  {
    if r.Ok? {
      assert s + ([x] + r.value) == (s + [x]) + r.value;
    }
  }

  // dtb_parse_node: on failure the offset stays.
  method NodeAt(w: seq<nat>, offset: nat) returns (r: Result<Node>, next: nat)
    ensures r == ParseNode(w, offset)
    ensures next == if r.Ok? then r.next else offset
    decreases Room(w, offset), 1
  {
    hide ParseProps, ParseNodes, NameLength, Text;
    next := offset;
    var k := SkipNops(w, offset);
    if k >= |w| {
      return Overrun, next;
    }
    if w[k] != BEGIN_NODE {
      return NoMatch, next;
    }
    var name := NameAt(w, k + 1);
    if !name.Ok? {
      return Overrun, next;
    }
    var props := PropsAt(w, name.next);
    if !props.Ok? {
      return Overrun, next;
    }
    var nodes := NodesAt(w, props.next);
    if !nodes.Ok? {
      return Overrun, next;
    }
    var d := SkipNops(w, nodes.next);
    if d >= |w| {
      return Overrun, next;
    }
    if w[d] != END_NODE {
      return NoMatch, next;
    }
    next := d + 1;
    r := Ok(Node(Text(w, k + 1, name.value), props.value, nodes.value), next);
  }

  // Its loop over child nodes.
  method NodesAt(w: seq<nat>, offset: nat) returns (r: Result<seq<Node>>)
    ensures r == ParseNodes(w, offset)
    decreases Room(w, offset), 2
  {
    hide ParseNode;
    var nodes, o := [], offset;
    PrependNone(ParseNodes(w, offset));
    while true
      invariant offset <= o && ParseNodes(w, offset) == Prepend(nodes, ParseNodes(w, o))
      decreases |w| - o
    {
      var n, next := NodeAt(w, o);
      if n.Overrun? {
        return Overrun;
      }
      if n.NoMatch? {
        assert nodes + [] == nodes;
        return Ok(nodes, o);
      }
      PrependMore(nodes, n.value, ParseNodes(w, next));
      nodes := nodes + [n.value];
      o := next;
    }
  }

  // A structure block: one flattened root node, NOPs, and the end token.
  ghost predicate FlatBlock(w: seq<nat>, n: Node) {
    exists e: nat, k: nat :: FlatNode(w, 0, e, n) && Nops(w, e, k) && k < |w| && w[k] == 9
  }

  // The parsing part of dtb_open; the root is renamed to "/" (47).
  method Open(w: seq<nat>) returns (ok: bool, root: Node)
    ensures ok && SmallNode(root) ==> exists n :: FlatBlock(w, n) && root == n.(name := [47])
    ensures !(ok && SmallNode(root)) ==> forall n :: FlatBlock(w, n) ==> !SmallNode(n)
    ensures !(ok && SmallNode(root)) && |w| <= MAX_WORDS ==> forall n :: !FlatBlock(w, n)
  {
    hide ParseNode, FlatNode;
    var r, next := NodeAt(w, 0);
    root := Node([], [], []);
    forall n: Node, e: nat | SmallNode(n) ensures r == Ok(n, e) <==> FlatNode(w, 0, e, n) {
      ParsesExactly(w, 0, e, n);
    }
    BlockSmall(w);
    if !r.Ok? {
      return false, root;
    }
    var k := SkipNops(w, next);
    forall j: nat | Nops(w, next, j) && j < |w| && w[j] == END ensures j == k {
      SkipIs(w, next, j);
    }
    if k >= |w| || w[k] != END {
      return false, root;
    }
    root := r.value.(name := [47]);
    assert SmallNode(root) <==> SmallNode(r.value);
    assert SmallNode(root) ==> FlatBlock(w, r.value);
    return true, root;
  }

  lemma BlockSmall(w: seq<nat>)
    ensures |w| <= MAX_WORDS ==> forall n :: FlatBlock(w, n) ==> SmallNode(n)
  {
    hide FlatNode, SmallNode;
    if |w| <= MAX_WORDS {
      forall n | FlatBlock(w, n) ensures SmallNode(n) {
        var e: nat, k: nat :| FlatNode(w, 0, e, n) && Nops(w, e, k) && k < |w| && w[k] == END;
        FlatSmall(w, 0, e, n);
      }
    }
  }
}
