/**
 Flattening a configuration tree into dotted names: ListAllMember of
 primo/config.cpp, and what it emits.
 */
module Flatten {
  import opened Sequences
  import opened Yaml

  predicate LegalChar(c: char) {
    'a' <= c <= 'z' || c == '_' || c == '.' || '0' <= c <= '9'
  }

  predicate Legal(s: string) {
    forall c <- s :: LegalChar(c)
  }

  /** The legal characters by their ASCII codes: lower-case letters, underscore, dot and digits. */
  lemma LegalIff(s: string)
    ensures Legal(s) <==> forall i | 0 <= i < |s| ::
      97 <= s[i] as int <= 122 || s[i] as int == 95 || s[i] as int == 46 || 48 <= s[i] as int <= 57
  {
    assert forall i | 0 <= i < |s| :: s[i] in s;
  }

  /** The upper-case letters move by 32, everything else stays. */
  lemma LowerCaseIs(s: string, i: nat)
    requires i < |s|
    ensures |LowerCase(s)| == |s|
    ensures LowerCase(s)[i] as int == if 65 <= s[i] as int <= 90 then s[i] as int + 32 else s[i] as int
  {
  }

  function ToLower(c: char): char {
    if 'A' <= c <= 'Z' then (c as int - 'A' as int + 'a' as int) as char else c
  }

  function LowerCase(s: string): string {
    seq(|s|, i requires 0 <= i < |s| => ToLower(s[i]))
  }

  function Fold(prefix: string, key: string): string {
    if prefix == "" then key else prefix + "." + key
  }

  type Member = (string, Node)

  // ---- Key chains, the reference definition ----

  /** A chain picks a child of a map at each level. */
  predicate IsChain(n: Node, c: seq<nat>) {
    c == [] || (n.Map? && c[0] < |n.entries| && IsChain(n.entries[c[0]].1, c[1..]))
  }

  function At(n: Node, c: seq<nat>): Node
    requires IsChain(n, c)
  {
    if c == [] then n else At(n.entries[c[0]].1, c[1..])
  }

  /** The dotted name of a chain, starting from a prefix. */
  function PathOf(prefix: string, n: Node, c: seq<nat>): string
    requires IsChain(n, c)
    decreases c
  {
    if c == [] then prefix
    else PathOf(Fold(prefix, n.entries[c[0]].0), n.entries[c[0]].1, c[1..])
  }

  /** Document order of chains: a node before its descendants, and those child by child. */
  predicate Before(a: seq<nat>, b: seq<nat>)
    decreases |a|
  {
    b != [] && (a == [] || a[0] < b[0] || (a[0] == b[0] && Before(a[1..], b[1..])))
  }

  // ---- The walk ----

  /** All members of the tree in the order of the walk, legal or not, each with its chain. */
  function Walk(prefix: string, n: Node): seq<(seq<nat>, Member)>
    decreases n, 1
  {
    [([], (prefix, n))] + if n.Map? then WalkEntries(prefix, n, 0) else []
  }

  /** The part of the walk under the children of a map from the i-th on. */
  function WalkEntries(prefix: string, n: Node, i: nat): seq<(seq<nat>, Member)>
    requires n.Map? && i <= |n.entries|
    decreases n, 0, |n.entries| - i
  {
    if i == |n.entries| then []
    else Under(i, Walk(Fold(prefix, n.entries[i].0), n.entries[i].1)) + WalkEntries(prefix, n, i + 1)
  }

  function Under(i: nat, ws: seq<(seq<nat>, Member)>): seq<(seq<nat>, Member)> {
    seq(|ws|, k requires 0 <= k < |ws| => ([i] + ws[k].0, ws[k].1))
  }

  /** The members whose name is legal, in order. */
  function Emitted(ws: seq<(seq<nat>, Member)>): seq<Member> {
    if ws == [] then []
    else Emitted(ws[..|ws| - 1]) + if Legal(ws[|ws| - 1].1.0) then [ws[|ws| - 1].1] else []
  }

  lemma {:induction false} EmittedConcat(a: seq<(seq<nat>, Member)>, b: seq<(seq<nat>, Member)>)
    ensures Emitted(a + b) == Emitted(a) + Emitted(b)
    decreases |b|
  {
    if b == [] {
      assert a + b == a;
    } else {
      EmittedConcat(a, b[..|b| - 1]);
      assert (a + b)[..|a + b| - 1] == a + b[..|b| - 1];
    }
  }

  lemma {:induction false} EmittedUnder(i: nat, ws: seq<(seq<nat>, Member)>)
    ensures Emitted(Under(i, ws)) == Emitted(ws)
    decreases |ws|
  {
    if ws != [] {
      EmittedUnder(i, ws[..|ws| - 1]);
      assert Under(i, ws)[..|ws| - 1] == Under(i, ws[..|ws| - 1]);
    }
  }

  // ---- The walk visits every chain once, in document order ----

  ghost predicate Describes(prefix: string, n: Node, w: (seq<nat>, Member)) {
    IsChain(n, w.0) && w.1 == (PathOf(prefix, n, w.0), At(n, w.0))
  }

  lemma {:induction false} WalkDescribes(prefix: string, n: Node)
    ensures forall w <- Walk(prefix, n) :: Describes(prefix, n, w)
    decreases n, 1
  {
    if n.Map? {
      EntriesDescribe(prefix, n, 0);
    }
  }

  lemma {:induction false} EntriesDescribe(prefix: string, n: Node, i: nat)
    requires n.Map? && i <= |n.entries|
    ensures forall w <- WalkEntries(prefix, n, i) :: Describes(prefix, n, w) && w.0 != [] && w.0[0] >= i
    decreases n, 0, |n.entries| - i
  {
    var es := n.entries;
    if i < |es| {
      var below := Walk(Fold(prefix, es[i].0), es[i].1);
      WalkDescribes(Fold(prefix, es[i].0), es[i].1);
      EntriesDescribe(prefix, n, i + 1);
      forall k | 0 <= k < |below|
        ensures Describes(prefix, n, Under(i, below)[k])
      {
        assert below[k] in below;
        assert ([i] + below[k].0)[1..] == below[k].0;
      }
    }
  }

  lemma {:induction false} WalkComplete(prefix: string, n: Node, c: seq<nat>) returns (k: nat)
    requires IsChain(n, c)
    ensures k < |Walk(prefix, n)| && Walk(prefix, n)[k].0 == c
    decreases c, 1
  {
    if c == [] {
      k := 0;
    } else {
      var j := EntriesComplete(prefix, n, c, 0);
      k := j + 1;
    }
  }

  lemma {:induction false} EntriesComplete(prefix: string, n: Node, c: seq<nat>, i: nat) returns (k: nat)
    requires IsChain(n, c) && c != [] && i <= c[0]
    ensures k < |WalkEntries(prefix, n, i)| && WalkEntries(prefix, n, i)[k].0 == c
    decreases c, 0, c[0] - i
  {
    var es := n.entries;
    var below := Walk(Fold(prefix, es[i].0), es[i].1);
    if i == c[0] {
      k := WalkComplete(Fold(prefix, es[i].0), es[i].1, c[1..]);
      assert Under(i, below)[k].0 == [i] + c[1..] == c;
    } else {
      var j := EntriesComplete(prefix, n, c, i + 1);
      k := |below| + j;
    }
  }

  ghost predicate InDocumentOrder(ws: seq<(seq<nat>, Member)>) {
    forall i, j | 0 <= i < j < |ws| :: Before(ws[i].0, ws[j].0)
  }

  lemma {:induction false} WalkOrdered(prefix: string, n: Node)
    ensures InDocumentOrder(Walk(prefix, n))
    decreases n, 1
  {
    if n.Map? {
      EntriesOrdered(prefix, n, 0);
      EntriesDescribe(prefix, n, 0);
    }
  }

  lemma {:induction false} EntriesOrdered(prefix: string, n: Node, i: nat)
    requires n.Map? && i <= |n.entries|
    ensures InDocumentOrder(WalkEntries(prefix, n, i))
    decreases n, 0, |n.entries| - i
  {
    var es := n.entries;
    if i < |es| {
      var below := Walk(Fold(prefix, es[i].0), es[i].1);
      WalkOrdered(Fold(prefix, es[i].0), es[i].1);
      EntriesOrdered(prefix, n, i + 1);
      EntriesDescribe(prefix, n, i + 1);
      UnderOrdered(i, below, WalkEntries(prefix, n, i + 1));
    }
  }

  lemma UnderOrdered(i: nat, below: seq<(seq<nat>, Member)>, later: seq<(seq<nat>, Member)>)
    requires InDocumentOrder(below) && InDocumentOrder(later)
    requires forall w <- later :: w.0 != [] && w.0[0] >= i + 1
    ensures InDocumentOrder(Under(i, below) + later)
  {
    var ws := Under(i, below) + later;
    forall a, b | 0 <= a < b < |ws|
      ensures Before(ws[a].0, ws[b].0)
    {
      if a < |below| {
        assert ws[a].0 == [i] + below[a].0 && ws[a].0[1..] == below[a].0;
        if b < |below| {
          assert ws[b].0 == [i] + below[b].0 && ws[b].0[1..] == below[b].0;
        } else {
          assert ws[b] in later;
        }
      }
    }
  }

  lemma {:induction false} BeforeIrreflexive(c: seq<nat>)
    ensures !Before(c, c)
    decreases |c|
  {
    if c != [] {
      BeforeIrreflexive(c[1..]);
    }
  }

  /**
   The walk lists every chain of the tree exactly once, in document order, with
   its dotted name and its node.
   */
  lemma FlatteningExact(prefix: string, n: Node)
    ensures var ws := Walk(prefix, n);
      && (forall w <- ws :: Describes(prefix, n, w))
      && InDocumentOrder(ws)
      && (forall i, j | 0 <= i < j < |ws| :: ws[i].0 != ws[j].0)
    ensures forall c | IsChain(n, c) :: exists k :: 0 <= k < |Walk(prefix, n)| && Walk(prefix, n)[k].0 == c
  {
    var ws := Walk(prefix, n);
    WalkDescribes(prefix, n);
    WalkOrdered(prefix, n);
    forall i, j | 0 <= i < j < |ws|
      ensures ws[i].0 != ws[j].0
    {
      BeforeIrreflexive(ws[i].0);
    }
    forall c | IsChain(n, c)
      ensures exists k :: 0 <= k < |ws| && ws[k].0 == c
    {
      var k := WalkComplete(prefix, n, c);
    }
  }

  lemma {:induction false} EmittedIn(ws: seq<(seq<nat>, Member)>, m: Member)
    ensures m in Emitted(ws) <==> exists w :: w in ws && Legal(w.1.0) && w.1 == m
    decreases |ws|
  {
    if ws != [] {
      var init, last := ws[..|ws| - 1], ws[|ws| - 1];
      EmittedIn(init, m);
      assert forall w :: w in ws <==> w in init || w == last;
    }
  }

  /** What is emitted from the root: the members on a chain of map keys with a legal name, and no others. */
  lemma EmittedIffLegalChain(root: Node, m: Member)
    ensures m in Emitted(Walk("", root)) <==>
      exists c :: IsChain(root, c) && Legal(PathOf("", root, c)) && m == (PathOf("", root, c), At(root, c))
  {
    EmittedIn(Walk("", root), m);
    if c :| IsChain(root, c) && Legal(PathOf("", root, c)) && m == (PathOf("", root, c), At(root, c)) {
      LegalChainEmitted(root, c);
    }
    WalkDescribes("", root);
    forall w | w in Walk("", root) && Legal(w.1.0) && w.1 == m
      ensures IsChain(root, w.0) && m == (PathOf("", root, w.0), At(root, w.0))
    {
      assert Describes("", root, w);
    }
  }

  /** The positions of the walk whose name is legal, in order. */
  function LegalAt(ws: seq<(seq<nat>, Member)>): seq<nat> {
    if ws == [] then []
    else LegalAt(ws[..|ws| - 1]) + if Legal(ws[|ws| - 1].1.0) then [|ws| - 1] else []
  }

  /** Strictly increasing, and onto the positions whose name is legal. */
  ghost predicate Selects(at: seq<nat>, ws: seq<(seq<nat>, Member)>) {
    && (forall i | 0 <= i < |at| :: at[i] < |ws| && Legal(ws[at[i]].1.0))
    && (forall i, j | 0 <= i < j < |at| :: at[i] < at[j])
    && (forall k | 0 <= k < |ws| && Legal(ws[k].1.0) :: k in at)
  }

  lemma SelectsMore(at: seq<nat>, init: seq<(seq<nat>, Member)>, last: (seq<nat>, Member))
    requires Selects(at, init)
    ensures Selects(at + if Legal(last.1.0) then [|init|] else [], init + [last])
  {
    var at', ws := at + (if Legal(last.1.0) then [|init|] else []), init + [last];
    forall k | 0 <= k < |ws| && Legal(ws[k].1.0)
      ensures k in at'
    {
      if k < |init| {
        assert init[k] == ws[k] && k in at;
      } else {
        assert at'[|at|] == k;
      }
    }
  }

  lemma {:induction false} LegalAtSelects(ws: seq<(seq<nat>, Member)>)
    ensures Selects(LegalAt(ws), ws)
    ensures |Emitted(ws)| == |LegalAt(ws)|
    ensures forall i | 0 <= i < |LegalAt(ws)| :: LegalAt(ws)[i] < |ws| && Emitted(ws)[i] == ws[LegalAt(ws)[i]].1
    decreases |ws|
  {
    if ws != [] {
      var init, last := ws[..|ws| - 1], ws[|ws| - 1];
      LegalAtSelects(init);
      SelectsMore(LegalAt(init), init, last);
      Unsnoc(ws);
    }
  }

  /**
   What is emitted from the root, as a list: a strictly increasing index map takes it
   onto the legal-named positions of the walk, so each chain of map keys with a legal
   name is emitted exactly once, in document order.
   */
  lemma EmittedOncePerLegalChain(root: Node) returns (at: seq<nat>)
    ensures var ws, es := Walk("", root), Emitted(Walk("", root));
      && Selects(at, ws) && |es| == |at|
      && (forall i | 0 <= i < |es| ::
            && IsChain(root, ws[at[i]].0)
            && es[i] == (PathOf("", root, ws[at[i]].0), At(root, ws[at[i]].0)))
      && (forall i, j | 0 <= i < j < |es| :: Before(ws[at[i]].0, ws[at[j]].0))
    ensures forall c | IsChain(root, c) && Legal(PathOf("", root, c)) ::
              exists i :: 0 <= i < |at| && Walk("", root)[at[i]].0 == c
  {
    var ws := Walk("", root);
    at := LegalAt(ws);
    LegalAtSelects(ws);
    FlatteningExact("", root);
    forall i | 0 <= i < |at|
      ensures Describes("", root, ws[at[i]])
    {
      assert ws[at[i]] in ws;
    }
    forall c | IsChain(root, c) && Legal(PathOf("", root, c))
      ensures exists i :: 0 <= i < |at| && ws[at[i]].0 == c
    {
      var k := WalkComplete("", root, c);
      assert Describes("", root, ws[k]);
      assert k in at;
    }
  }

  lemma LegalChainEmitted(root: Node, c: seq<nat>)
    requires IsChain(root, c) && Legal(PathOf("", root, c))
    ensures (PathOf("", root, c), At(root, c)) in Emitted(Walk("", root))
  {
    var ws := Walk("", root);
    WalkDescribes("", root);
    var k := WalkComplete("", root, c);
    assert Describes("", root, ws[k]);
    EmittedIn(ws, ws[k].1);
  }

  // ---- Legal names ----

  lemma {:induction false} PathExtends(prefix: string, n: Node, c: seq<nat>)
    requires IsChain(n, c) && Legal(PathOf(prefix, n, c))
    ensures Legal(prefix)
    decreases c
  {
    if c != [] {
      var p := Fold(prefix, n.entries[c[0]].0);
      PathExtends(p, n.entries[c[0]].1, c[1..]);
      assert forall i | 0 <= i < |prefix| :: prefix[i] == p[i];
    }
  }

  lemma {:induction false} ChainPrefix(n: Node, c: seq<nat>, k: nat)
    requires IsChain(n, c) && k <= |c|
    ensures IsChain(n, c[..k])
    decreases k
  {
    if k > 0 {
      ChainPrefix(n.entries[c[0]].1, c[1..], k - 1);
      assert c[..k][1..] == c[1..][..k - 1];
    }
  }

  /** When the name of a chain is legal, so are the names of all its ancestors. */
  lemma {:induction false} AncestorsLegal(prefix: string, n: Node, c: seq<nat>, k: nat)
    requires IsChain(n, c) && k <= |c| && Legal(PathOf(prefix, n, c))
    ensures IsChain(n, c[..k]) && Legal(PathOf(prefix, n, c[..k]))
    decreases k
  {
    ChainPrefix(n, c, k);
    if k == 0 {
      PathExtends(prefix, n, c);
    } else {
      AncestorsLegal(Fold(prefix, n.entries[c[0]].0), n.entries[c[0]].1, c[1..], k - 1);
      assert c[..k][1..] == c[1..][..k - 1];
    }
  }

  lemma LegalIsLowerCase(s: string)
    requires Legal(s)
    ensures LowerCase(s) == s
  {
    forall i | 0 <= i < |s|
      ensures LowerCase(s)[i] == s[i]
    {
      assert s[i] in s;
    }
  }

  lemma {:induction false} NothingEmitted(ws: seq<(seq<nat>, Member)>)
    requires forall w <- ws :: !Legal(w.1.0)
    ensures Emitted(ws) == []
    decreases |ws|
  {
    if ws != [] {
      assert ws[|ws| - 1] in ws;
      NothingEmitted(ws[..|ws| - 1]);
    }
  }

  lemma IllegalPrefix(prefix: string, n: Node)
    requires !Legal(prefix)
    ensures Emitted(Walk(prefix, n)) == []
  {
    WalkDescribes(prefix, n);
    forall w <- Walk(prefix, n)
      ensures !Legal(w.1.0)
    {
      if Legal(w.1.0) {
        PathExtends(prefix, n, w.0);
      }
    }
    NothingEmitted(Walk(prefix, n));
  }

  // ---- The dotted form of a name ----

  /** The map keys along a chain. */
  function Keys(n: Node, c: seq<nat>): (keys: seq<string>)
    requires IsChain(n, c)
    ensures |keys| == |c|
    decreases c
  {
    if c == [] then [] else [n.entries[c[0]].0] + Keys(n.entries[c[0]].1, c[1..])
  }

  /** The keys with a dot between each two. */
  function Join(keys: seq<string>): string {
    if keys == [] then ""
    else if |keys| == 1 then keys[0]
    else keys[0] + "." + Join(keys[1..])
  }

  /** Keys that are empty leave no trace at the front. */
  function DropEmpty(keys: seq<string>): seq<string> {
    if keys != [] && keys[0] == "" then DropEmpty(keys[1..]) else keys
  }

  function FirstDot(s: string): (k: nat)
    ensures k <= |s|
    ensures forall j | 0 <= j < k :: s[j] != '.'
    ensures k < |s| ==> s[k] == '.'
  {
    if s == "" || s[0] == '.' then 0 else 1 + FirstDot(s[1..])
  }

  function SplitAtDots(s: string): seq<string>
    decreases |s|
  {
    var k := FirstDot(s);
    if k == |s| then [s] else [s[..k]] + SplitAtDots(s[k + 1..])
  }

  lemma {:induction false} NameBelow(prefix: string, n: Node, c: seq<nat>)
    requires IsChain(n, c) && prefix != ""
    ensures PathOf(prefix, n, c) == if c == [] then prefix else prefix + "." + Join(Keys(n, c))
    decreases c
  {
    if c != [] {
      var key, child := n.entries[c[0]].0, n.entries[c[0]].1;
      NameBelow(prefix + "." + key, child, c[1..]);
      var keys := Keys(n, c);
      Joined([key], Keys(child, c[1..]));
      if |c| > 1 {
        Assoc(prefix + ".", key + ".", Join(Keys(child, c[1..])));
        Assoc(prefix + ".", key, ".");
      }
    }
  }

  /**
   The name of a chain is its keys joined by dots, where empty keys at the front, and
   only those, are left out.
   */
  lemma {:induction false} NameIsJoinedKeys(root: Node, c: seq<nat>)
    requires IsChain(root, c)
    ensures PathOf("", root, c) == Join(DropEmpty(Keys(root, c)))
    decreases c
  {
    if c != [] {
      var key, child := root.entries[c[0]].0, root.entries[c[0]].1;
      Joined([key], Keys(child, c[1..]));
      if key == "" {
        NameIsJoinedKeys(child, c[1..]);
      } else {
        NameBelow(key, child, c[1..]);
      }
    }
  }

  lemma FirstDotIs(s: string, k: nat)
    requires k <= |s| && (forall j | 0 <= j < k :: s[j] != '.') && (k < |s| ==> s[k] == '.')
    ensures FirstDot(s) == k
  {
  }

  lemma {:induction false} SplitOfJoin(keys: seq<string>)
    requires keys != [] && forall key <- keys :: '.' !in key
    ensures SplitAtDots(Join(keys)) == keys
    decreases |keys|
  {
    var key := keys[0];
    assert key in keys;
    Uncons(keys);
    if |keys| == 1 {
      FirstDotIs(key, |key|);
    } else {
      var rest := Join(keys[1..]);
      SplitOfJoin(keys[1..]);
      FirstDotIs(key + "." + rest, |key|);
      Joined(key + ".", rest);
      assert (key + "." + rest)[..|key|] == key;
    }
  }

  /** Where no key is empty or holds a dot, the name tells the keys. */
  lemma NameTellsKeys(root: Node, c: seq<nat>)
    requires IsChain(root, c) && c != []
    requires forall key <- Keys(root, c) :: key != "" && '.' !in key
    ensures PathOf("", root, c) == Join(Keys(root, c))
    ensures SplitAtDots(PathOf("", root, c)) == Keys(root, c)
  {
    NameIsJoinedKeys(root, c);
    assert Keys(root, c)[0] in Keys(root, c);
    SplitOfJoin(Keys(root, c));
  }

  // ---- The recursive procedure ----

  class NodeList {
    var items: seq<Member>

    constructor ()
      ensures items == []
    {
      items := [];
    }
  }

  function EmittedAt(prefix: string, n: Node, k: nat): seq<Member>
    requires n.Map? && k < |n.entries|
  {
    Emitted(Walk(Fold(prefix, n.entries[k].0), n.entries[k].1))
  }

  /** The members under the entries from the k-th on, as the loop emits them. */
  function EmittedFrom(prefix: string, n: Node, k: nat): seq<Member>
    requires n.Map? && k <= |n.entries|
    decreases |n.entries| - k
  {
    if k == |n.entries| then [] else EmittedAt(prefix, n, k) + EmittedFrom(prefix, n, k + 1)
  }

  lemma EmittedStep(prefix: string, n: Node, k: nat)
    requires n.Map? && k < |n.entries|
    ensures Emitted(WalkEntries(prefix, n, k)) == EmittedAt(prefix, n, k) + Emitted(WalkEntries(prefix, n, k + 1))
  {
    var below := Walk(Fold(prefix, n.entries[k].0), n.entries[k].1);
    EmittedConcat(Under(k, below), WalkEntries(prefix, n, k + 1));
    EmittedUnder(k, below);
  }

  lemma {:induction false} EmittedEntries(prefix: string, n: Node, k: nat)
    requires n.Map? && k <= |n.entries|
    ensures Emitted(WalkEntries(prefix, n, k)) == EmittedFrom(prefix, n, k)
    decreases |n.entries| - k
  {
    if k < |n.entries| {
      EmittedStep(prefix, n, k);
      EmittedEntries(prefix, n, k + 1);
      assert EmittedFrom(prefix, n, k) == EmittedAt(prefix, n, k) + EmittedFrom(prefix, n, k + 1);
    }
  }

  lemma EmittedNode(prefix: string, n: Node)
    requires Legal(prefix)
    ensures Emitted(Walk(prefix, n)) == [(prefix, n)] + if n.Map? then EmittedFrom(prefix, n, 0) else []
  {
    var here := [([], (prefix, n))];
    assert here[..0] == [];
    assert Emitted(here) == [(prefix, n)];
    if n.Map? {
      EmittedConcat(here, WalkEntries(prefix, n, 0));
      EmittedEntries(prefix, n, 0);
    } else {
      EmptyRight(here);
      EmptyRight([(prefix, n)]);
    }
  }

  /** Appends exactly the members of the tree whose name is legal, in document order. */
  method ListAllMember(prefix: string, node: Node, output: NodeList)
    modifies output
    ensures output.items == old(output.items) + Emitted(Walk(prefix, node))
    decreases node, 1
  {
    if !Legal(prefix) {
      IllegalPrefix(prefix, node);
      return;
    }
    EmittedNode(prefix, node);
    output.items := output.items + [(prefix, node)];
    if node.Map? {
      ListEntries(prefix, node, output);
      Assoc(old(output.items), [(prefix, node)], EmittedFrom(prefix, node, 0));
    } else {
      EmptyRight([(prefix, node)]);
    }
  }

  /** The loop of the same procedure. */
  method ListEntries(prefix: string, node: Node, output: NodeList)
    requires node.Map?
    modifies output
    ensures output.items == old(output.items) + EmittedFrom(prefix, node, 0)
    decreases node, 0
  {
    var k := 0;
    while k < |node.entries|
      invariant 0 <= k <= |node.entries|
      invariant output.items + EmittedFrom(prefix, node, k) == old(output.items) + EmittedFrom(prefix, node, 0)
    {
      var it := node.entries[k];
      Assoc(output.items, EmittedAt(prefix, node, k), EmittedFrom(prefix, node, k + 1));
      ListAllMember(Fold(prefix, it.0), it.1, output);
      k := k + 1;
    }
    EmptyRight(output.items);
  }
}
