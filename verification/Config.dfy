/**
 Configuration variables and their registry: CfgVar and Config of primo/config.h and
 LoadFromYaml of primo/config.cpp.  Line numbers are those of primo/config.h.
 */
module Config {
  import opened Wrappers
  import opened Yaml
  import opened Flatten

  /** One notification: the two values and the listeners that were called with them. */
  datatype Note<V> = Note(before: V, now: V, heard: set<nat>)

  /** The last converted value among the nodes emitted for a name; the old value if there is none. */
  function Loaded<V>(conv: Node -> Option<V>, name: string, nodes: seq<Member>, v: V): V {
    if nodes == [] then v
    else
      var (key, node) := nodes[|nodes| - 1];
      if key != "" && key == name && conv(node).Some? then conv(node).value
      else Loaded(conv, name, nodes[..|nodes| - 1], v)
  }

  /** The successfully converted values for a name, in order. */
  function Conversions<V>(conv: Node -> Option<V>, name: string, nodes: seq<Member>): seq<V> {
    if nodes == [] then []
    else
      var (key, node) := nodes[|nodes| - 1];
      Conversions(conv, name, nodes[..|nodes| - 1])
        + if key != "" && key == name && conv(node).Some? then [conv(node).value] else []
  }

  lemma {:induction false} LoadedIsLast<V>(conv: Node -> Option<V>, name: string, nodes: seq<Member>, v: V)
    ensures var cs := Conversions(conv, name, nodes);
      Loaded(conv, name, nodes, v) == if cs == [] then v else cs[|cs| - 1]
    decreases |nodes|
  {
    if nodes != [] {
      LoadedIsLast(conv, name, nodes[..|nodes| - 1], v);
    }
  }

  /**
   The loaded value without the functions that compute it: the conversion of the last
   node emitted for the name that converts, or the old value when none does.
   */
  lemma {:induction false} LoadedIs<V>(conv: Node -> Option<V>, name: string, nodes: seq<Member>, v: V)
    requires name != ""
    ensures var w := Loaded(conv, name, nodes, v);
      || (w == v && forall i | 0 <= i < |nodes| && nodes[i].0 == name :: conv(nodes[i].1).None?)
      || (exists i :: 0 <= i < |nodes| && nodes[i].0 == name && conv(nodes[i].1) == Some(w)
                      && forall j | i < j < |nodes| && nodes[j].0 == name :: conv(nodes[j].1).None?)
    decreases |nodes|
  {
    if nodes != [] {
      var n := |nodes| - 1;
      LoadedIs(conv, name, nodes[..n], v);
      assert forall i | 0 <= i < n :: nodes[..n][i] == nodes[i];
      if nodes[n].0 == name && conv(nodes[n].1).Some? {
        assert conv(nodes[n].1) == Some(Loaded(conv, name, nodes, v));
      }
    }
  }

  /** A chain of notifications from one value to another, with no step that changes nothing. */
  ghost predicate Chain<V>(v: V, notes: seq<Note<V>>, w: V)
    decreases |notes|
  {
    if notes == [] then v == w
    else
      var last := notes[|notes| - 1];
      last.now == w && last.before != last.now && Chain(v, notes[..|notes| - 1], last.before)
  }

  /** Hands out listener keys; shared by the variables of one type. */
  class ListenerIds {
    var last: nat

    constructor ()
      ensures last == 0
    {
      last := 0;
    }
  }

  /** V holds the values of all C++ types, the kind tells which type the variable has. */
  class CfgVar<V(==)> {
    const name: string
    const kind: nat
    const conv: Node -> Option<V>
    var val: V
    var listeners: set<nat>
    var notes: seq<Note<V>>

    constructor (name: string, kind: nat, default: V, conv: Node -> Option<V>)
      ensures this.name == LowerCase(name) && this.kind == kind && this.conv == conv
      ensures val == default && listeners == {} && notes == []
    {
      this.name, this.kind, this.conv, val, listeners, notes := LowerCase(name), kind, conv, default, {}, [];
    }

    /** Lines 368-385: every registered listener hears the change, then the value is written. */
    method SetValue(v: V)
      modifies this`val, this`notes
      ensures val == v
      ensures notes == old(notes) + if v == old(val) then [] else [Note(old(val), v, listeners)]
    {
      if val == v {
        return;
      }
      notes := notes + [Note(val, v, listeners)];
      val := v;
    }

    /** Lines 340-355: false is returned whatever happened. */
    method FromString(node: Node) returns (ok: bool)
      modifies this`val, this`notes
      ensures !ok
      ensures conv(node).None? ==> val == old(val) && notes == old(notes)
      ensures conv(node).Some? ==>
        && val == conv(node).value
        && notes == old(notes) + if val == old(val) then [] else [Note(old(val), val, listeners)]
    {
      match conv(node) {
        case None =>
        case Some(v) => SetValue(v);
      }
      ok := false;
    }

    /** Keys are never reused: the new one is above all that were handed out before. */
    method AddListener(ids: ListenerIds) returns (key: nat)
      requires forall k <- listeners :: k <= ids.last
      modifies ids, this`listeners
      ensures key !in old(listeners) && listeners == old(listeners) + {key}
      ensures ids.last == old(ids.last) + 1 && forall k <- listeners :: k <= ids.last
    {
      ids.last := ids.last + 1;
      key := ids.last;
      listeners := listeners + {key};
    }

    method DelListener(key: nat)
      modifies this`listeners
      ensures listeners == old(listeners) - {key}
    {
      listeners := listeners - {key};
    }

    method ClearListener()
      modifies this`listeners
      ensures listeners == {}
    {
      listeners := {};
    }
  }

  /** The notifications that converting the nodes one after another sends. */
  function NotesOf<V(==)>(conv: Node -> Option<V>, name: string, nodes: seq<Member>, v: V, ls: set<nat>): seq<Note<V>> {
    if nodes == [] then []
    else
      var init := nodes[..|nodes| - 1];
      var (key, node) := nodes[|nodes| - 1];
      var before := Loaded(conv, name, init, v);
      NotesOf(conv, name, init, v, ls)
        + if key != "" && key == name && conv(node).Some? && conv(node).value != before
          then [Note(before, conv(node).value, ls)] else []
  }

  lemma {:induction false} NotesChain<V>(conv: Node -> Option<V>, name: string, nodes: seq<Member>, v: V, ls: set<nat>)
    ensures Chain(v, NotesOf(conv, name, nodes, v, ls), Loaded(conv, name, nodes, v))
    ensures forall n <- NotesOf(conv, name, nodes, v, ls) :: n.heard == ls
    decreases |nodes|
  {
    if nodes != [] {
      var init := nodes[..|nodes| - 1];
      var (key, node) := nodes[|nodes| - 1];
      var rest := NotesOf(conv, name, init, v, ls);
      NotesChain(conv, name, init, v, ls);
      var all := NotesOf(conv, name, nodes, v, ls);
      if |all| > |rest| {
        assert all[..|all| - 1] == rest;
      } else {
        assert all == rest;
      }
    }
  }

  /** After every node the notifications so far lead to the value so far, so none is missing or late. */
  lemma {:induction false} NotesKeepUp<V>(conv: Node -> Option<V>, name: string, nodes: seq<Member>, v: V, ls: set<nat>, k: nat)
    requires k <= |nodes|
    ensures NotesOf(conv, name, nodes[..k], v, ls) <= NotesOf(conv, name, nodes, v, ls)
    ensures Chain(v, NotesOf(conv, name, nodes[..k], v, ls), Loaded(conv, name, nodes[..k], v))
    decreases |nodes|
  {
    NotesChain(conv, name, nodes[..k], v, ls);
    if k < |nodes| {
      NotesKeepUp(conv, name, nodes[..|nodes| - 1], v, ls, k);
      assert nodes[..|nodes| - 1][..k] == nodes[..k];
    } else {
      assert nodes[..k] == nodes;
    }
  }

  ghost predicate Stands<V>(conv: Node -> Option<V>, name: string, nodes: seq<Member>,
                            v0: V, notes0: seq<Note<V>>, ls: set<nat>, v: V, notes: seq<Note<V>>)
  {
    v == Loaded(conv, name, nodes, v0) && notes == notes0 + NotesOf(conv, name, nodes, v0, ls)
  }

  class Registry<V(==)> {
    var vars: map<string, CfgVar<V>>

    ghost predicate Valid()
      reads this
    {
      forall a, b | a in vars && b in vars && a != b :: vars[a] != vars[b]
    }

    constructor ()
      ensures Valid() && vars == map[]
    {
      vars := map[];
    }

    /** Lines 493-498: find only, never inserts. */
    method LookUpBase(name: string) returns (v: CfgVar?<V>)
      ensures v == if name in vars then vars[name] else null
    {
      v := if name in vars then vars[name] else null;
    }

    /**
     Lines 435-469: an existing variable is returned as it is, or null when its type is
     not the one asked for; a new one is made only under a legal name.
     */
    method LookUp(name: string, kind: nat, default: V, conv: Node -> Option<V>) returns (r: Result<CfgVar?<V>>)
      requires Valid()
      modifies this
      ensures Valid()
      ensures name in old(vars) ==>
        vars == old(vars) && r == Ok(if old(vars)[name].kind == kind then old(vars)[name] else null)
      ensures name !in old(vars) && !Legal(name) ==> r == Err && vars == old(vars)
      ensures name !in old(vars) && Legal(name) ==>
        && r.Ok? && r.value != null && fresh(r.value) && vars == old(vars)[name := r.value]
        && r.value.name == name && r.value.kind == kind && r.value.conv == conv
        && r.value.val == default && r.value.listeners == {} && r.value.notes == []
    {
      if name in vars {
        return Ok(if vars[name].kind == kind then vars[name] else null);
      }
      if !Legal(name) {
        return Err;
      }
      LegalIsLowerCase(name);
      var v := new CfgVar(name, kind, default, conv);
      vars := vars[name := v];
      return Ok(v);
    }

    /** Where a variable stands after some nodes, given where it stood at first. */
    ghost predicate Follows(nodes: seq<Member>, name: string, v0: V, notes0: seq<Note<V>>, ls: set<nat>)
      requires name in vars
      reads this, vars[name]
    {
      var v := vars[name];
      v.listeners == ls && Stands(v.conv, name, nodes, v0, notes0, ls, v.val, v.notes)
    }

    /** One pass of the loop of LoadFromYaml, for one emitted member. */
    method LoadMember(m: Member)
      requires Valid() && Legal(m.0)
      modifies set name | name in vars :: vars[name]
      ensures forall name <- vars ::
        Follows([m], name, old(vars[name].val), old(vars[name].notes), old(vars[name].listeners))
    {
      var (key, node) := m;
      if key != "" {
        LegalIsLowerCase(key);
        var v := LookUpBase(LowerCase(key));
        if v != null {
          var ok := v.FromString(node);
        }
      }
      forall name <- vars
        ensures Follows([m], name, old(vars[name].val), old(vars[name].notes), old(vars[name].listeners))
      {
        var v := vars[name];
        SingleMember(v.conv, name, m, old(v.val), old(v.notes), v.listeners);
      }
    }

    ghost function Values(): map<string, V>
      reads this, set name | name in vars :: vars[name]
    {
      map name | name in vars :: vars[name].val
    }

    ghost function Notes(): map<string, seq<Note<V>>>
      reads this, set name | name in vars :: vars[name]
    {
      map name | name in vars :: vars[name].notes
    }

    ghost function Listeners(): map<string, set<nat>>
      reads this, set name | name in vars :: vars[name]
    {
      map name | name in vars :: vars[name].listeners
    }

    /** Each variable stands where the nodes have taken it from its first value, notes and listeners. */
    ghost predicate AllFollow(nodes: seq<Member>, v0: map<string, V>, n0: map<string, seq<Note<V>>>,
                              l0: map<string, set<nat>>)
      reads this, set name | name in vars :: vars[name]
    {
      forall name <- vars :: name in v0 && name in n0 && name in l0 && Follows(nodes, name, v0[name], n0[name], l0[name])
    }

    lemma AtFirst()
      ensures AllFollow([], Values(), Notes(), Listeners())
    {
    }

    /** The loop body, seen from the start of the loop. */
    method LoadNext(nodes: seq<Member>, k: nat, ghost v0: map<string, V>, ghost n0: map<string, seq<Note<V>>>,
                    ghost l0: map<string, set<nat>>)
      requires Valid() && k < |nodes| && Legal(nodes[k].0) && AllFollow(nodes[..k], v0, n0, l0)
      modifies set name | name in vars :: vars[name]
      ensures AllFollow(nodes[..k + 1], v0, n0, l0)
    {
      LoadMember(nodes[k]);
      forall name <- vars
        ensures Follows(nodes[..k + 1], name, v0[name], n0[name], l0[name])
      {
        var v := vars[name];
        OneMore(v.conv, name, nodes, k, v0[name], n0[name], l0[name], old(v.val), old(v.notes), v.val, v.notes);
      }
    }

    /** The loop of LoadFromYaml over the emitted members. */
    method LoadMembers(nodes: seq<Member>, ghost v0: map<string, V>, ghost n0: map<string, seq<Note<V>>>,
                       ghost l0: map<string, set<nat>>)
      requires Valid() && (forall m <- nodes :: Legal(m.0)) && AllFollow([], v0, n0, l0)
      modifies set name | name in vars :: vars[name]
      ensures AllFollow(nodes, v0, n0, l0)
    {
      var k := 0;
      assert nodes[..0] == [];
      while k < |nodes|
        invariant 0 <= k <= |nodes| && AllFollow(nodes[..k], v0, n0, l0)
      {
        assert nodes[k] in nodes;
        LoadNext(nodes, k, v0, n0, l0);
        k := k + 1;
      }
      assert nodes[..k] == nodes;
    }

    /**
     Last writer wins: every registered variable ends at the last successfully
     converted node emitted for its name, its listeners hear exactly the changes on
     the way, and nothing else changes.
     */
    method LoadFromYaml(root: Node)
      requires Valid()
      modifies set name | name in vars :: vars[name]
      ensures Valid() && vars == old(vars)
      ensures AllFollow(Emitted(Walk("", root)), old(Values()), old(Notes()), old(Listeners()))
    {
      var nodes := AllNodes(root);
      ghost var v0, n0, l0 := Values(), Notes(), Listeners();
      AtFirst();
      LoadMembers(nodes, v0, n0, l0);
    }
  }

  /** Lines 39-40 of primo/config.cpp. */
  method AllNodes(root: Node) returns (nodes: seq<Member>)
    ensures nodes == Emitted(Walk("", root)) && forall m <- nodes :: Legal(m.0)
  {
    var output := new NodeList();
    ListAllMember("", root, output);
    nodes := output.items;
    assert nodes == Emitted(Walk("", root));
    forall m <- nodes
      ensures Legal(m.0)
    {
      AllEmittedLegal(root, m);
    }
  }

  lemma SingleMember<V>(conv: Node -> Option<V>, name: string, m: Member,
                        v0: V, notes0: seq<Note<V>>, ls: set<nat>)
    ensures var hit := m.0 != "" && m.0 == name && conv(m.1).Some?;
      && Loaded(conv, name, [m], v0) == (if hit then conv(m.1).value else v0)
      && NotesOf(conv, name, [m], v0, ls)
         == if hit && conv(m.1).value != v0 then [Note(v0, conv(m.1).value, ls)] else []
  {
    assert [m][..0] == [];
    assert Loaded(conv, name, [], v0) == v0;
    assert NotesOf(conv, name, [], v0, ls) == [];
  }

  lemma OneMore<V>(conv: Node -> Option<V>, name: string, nodes: seq<Member>, k: nat,
                   v0: V, notes0: seq<Note<V>>, ls: set<nat>, v1: V, notes1: seq<Note<V>>, v2: V, notes2: seq<Note<V>>)
    requires k < |nodes|
    requires Stands(conv, name, nodes[..k], v0, notes0, ls, v1, notes1)
    requires Stands(conv, name, [nodes[k]], v1, notes1, ls, v2, notes2)
    ensures Stands(conv, name, nodes[..k + 1], v0, notes0, ls, v2, notes2)
  {
    SingleMember(conv, name, nodes[k], v1, notes1, ls);
    assert nodes[..k + 1][..k] == nodes[..k];
    var step := NotesOf(conv, name, [nodes[k]], v1, ls);
    assert notes2 == notes0 + (NotesOf(conv, name, nodes[..k], v0, ls) + step);
  }

  lemma AllEmittedLegal(root: Node, m: Member)
    requires m in Emitted(Walk("", root))
    ensures Legal(m.0)
  {
    EmittedIffLegalChain(root, m);
  }
}
