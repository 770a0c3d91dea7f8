/**
 * The construction-time tenant scan: a depth-first walk over a composed object graph, cycles included, that
 * reports every field pinning a tenant, and then drops what lies under an exempted root key.
 */
module GraphScan {
  import opened Text

  datatype Value = Str(text: string) | Ref(id: nat) | Other

  datatype Prop = Prop(key: string, value: Value)

  /** An object: its own properties in `Object.keys` order. Maps, sets, dates and buffers are opaque. */
  datatype Node = Node(opaqueKind: bool, props: seq<Prop>)

  type Graph = map<nat, Node>

  const PIN_FIELDS: set<string> := {"tenantId", "_tenantId", "defaultTenantId", "pinnedTenantId"}

  predicate IsPin(p: Prop) { p.key in PIN_FIELDS && p.value.Str? && p.value.text != "" }

  predicate Walkable(g: Graph, id: nat) { id in g && !g[id].opaqueKind }

  // ---------------------------------------------------------------------------
  // The walk
  // ---------------------------------------------------------------------------

  /** A reported pin: the keys from the root to it, and the object that holds it. */
  datatype Hit = Hit(trail: seq<string>, owner: nat)

  /** `order` lists the objects in the order they were entered. */
  datatype State = State(found: seq<Hit>, seen: set<nat>, order: seq<nat>)

  function Visit(g: Graph, st: State, v: Value, trail: seq<string>): (r: State)
    ensures st.seen <= r.seen && st.found <= r.found
    decreases |g.Keys - st.seen|, 0, 0
  {
    if !v.Ref? || v.id !in g || v.id in st.seen then st
    else
      var st1 := State(st.found, st.seen + {v.id}, st.order + [v.id]);
      assert g.Keys - st1.seen < g.Keys - st.seen by { assert v.id in g.Keys - st.seen; }
      SmallerSet(g.Keys - st1.seen, g.Keys - st.seen);
      if g[v.id].opaqueKind then st1 else VisitProps(g, st1, v.id, |g[v.id].props|, trail)
  }

  /** The walk over the first `k` properties of an object. */
  function VisitProps(g: Graph, st: State, id: nat, k: nat, trail: seq<string>): (r: State)
    requires id in g && k <= |g[id].props|
    ensures st.seen <= r.seen && st.found <= r.found
    decreases |g.Keys - st.seen|, k, 0
  {
    if k == 0 then st
    else
      var before := VisitProps(g, st, id, k - 1, trail);
      SubsetSize(g.Keys - before.seen, g.Keys - st.seen);
      VisitProp(g, before, id, g[id].props[k - 1], trail)
  }

  function VisitProp(g: Graph, st: State, id: nat, p: Prop, trail: seq<string>): (r: State)
    ensures st.seen <= r.seen && st.found <= r.found
    decreases |g.Keys - st.seen|, 0, 1
  {
    if IsPin(p) then st.(found := st.found + [Hit(trail + [p.key], id)]) else Visit(g, st, p.value, trail + [p.key])
  }

  lemma SmallerSet(a: set<nat>, b: set<nat>)
    requires a < b
    ensures |a| < |b|
  {
    var x :| x in b && x !in a;
    SubsetSize(a, b - {x});
  }

  lemma SubsetSize(a: set<nat>, b: set<nat>)
    requires a <= b
    ensures |a| <= |b|
  {
    if a != {} {
      var x :| x in a;
      SubsetSize(a - {x}, b - {x});
    }
  }

  /** The dotted path of a trail; an empty path so far leaves no dot behind. */
  function PathText(trail: seq<string>): string {
    if trail == [] then "" else Child(PathText(trail[..|trail| - 1]), trail[|trail| - 1])
  }

  function Child(path: string, key: string): string { if path == "" then key else path + "." + key }

  function Texts(found: seq<Hit>): seq<string> { seq(|found|, i requires 0 <= i < |found| => PathText(found[i].trail)) }

  const Start: State := State([], {}, [])

  function Scanned(g: Graph, root: nat): State { Visit(g, Start, Ref(root), []) }

  function FirstSegment(path: string): string { SplitDots(path)[0] }

  function Unexempted(found: seq<string>, exempt: set<string>): seq<string> {
    if found == [] then []
    else
      var rest := Unexempted(found[..|found| - 1], exempt);
      if FirstSegment(found[|found| - 1]) in exempt then rest else rest + [found[|found| - 1]]
  }

  /** `findConstructionTimeTenants`. */
  function Find(g: Graph, root: nat, exempt: set<string>): seq<string> {
    Unexempted(Texts(Scanned(g, root).found), exempt)
  }

  class Scanner {
    const graph: Graph
    var found: seq<string>
    var seen: set<nat>
    ghost var hits: seq<Hit>
    ghost var order: seq<nat>

    constructor (graph: Graph)
      ensures this.graph == graph && Holds(Start)
    {
      this.graph, found, seen, hits, order := graph, [], {}, [], [];
    }

    ghost predicate Holds(st: State)
      reads this
    {
      st == State(hits, seen, order) && found == Texts(hits)
    }

    method Walk(v: Value, path: string, ghost trail: seq<string>)
      requires path == PathText(trail) && found == Texts(hits)
      modifies this
      ensures Holds(Visit(graph, old(State(hits, seen, order)), v, trail))
      decreases |graph.Keys - seen|
    {
      if !v.Ref? || v.id !in graph {
        return;
      }
      if v.id in seen {
        return;
      }
      assert graph.Keys - (seen + {v.id}) < graph.Keys - seen by { assert v.id in graph.Keys - seen; }
      SmallerSet(graph.Keys - (seen + {v.id}), graph.Keys - seen);
      seen, order := seen + {v.id}, order + [v.id];
      var node := graph[v.id];
      if node.opaqueKind {
        return;
      }
      ghost var st := State(hits, seen, order);
      for i := 0 to |node.props|
        invariant Holds(VisitProps(graph, st, v.id, i, trail))
      {
        var p := node.props[i];
        var childPath := if path == "" then p.key else path + "." + p.key;
        assert (trail + [p.key])[..|trail|] == trail;
        if IsPin(p) {
          found := found + [childPath];
          hits := hits + [Hit(trail + [p.key], v.id)];
        } else {
          SubsetSize(graph.Keys - seen, graph.Keys - st.seen);
          Walk(p.value, childPath, trail + [p.key]);
        }
      }
    }
  }

  method FindConstructionTimeTenants(g: Graph, root: nat, exempt: set<string>) returns (paths: seq<string>)
    ensures paths == Find(g, root, exempt)
  {
    var s := new Scanner(g);
    s.Walk(Ref(root), "", []);
    paths := [];
    for i := 0 to |s.found|
      invariant paths == Unexempted(s.found[..i], exempt)
    {
      assert s.found[..i + 1][..i] == s.found[..i];
      if FirstSegment(s.found[i]) !in exempt {
        paths := paths + [s.found[i]];
      }
    }
    assert s.found[..|s.found|] == s.found;
  }

  // ---------------------------------------------------------------------------
  // What the walk finds
  // ---------------------------------------------------------------------------

  ghost predicate Edge(g: Graph, a: nat, key: string, b: nat) {
    Walkable(g, a) && b in g && exists k | 0 <= k < |g[a].props| :: g[a].props[k] == Prop(key, Ref(b))
  }

  /** The keys lead from `a` to `b` without entering an object of `avoid`. */
  ghost predicate Leads(g: Graph, avoid: set<nat>, a: nat, keys: seq<string>, b: nat)
    decreases |keys|
  {
    a !in avoid &&
    if keys == [] then a == b
    else exists mid :: Edge(g, a, keys[0], mid) && Leads(g, avoid, mid, keys[1..], b)
  }

  ghost predicate Reaches(g: Graph, avoid: set<nat>, a: nat, b: nat) { exists keys :: Leads(g, avoid, a, keys, b) }

  ghost predicate PinAt(g: Graph, owner: nat, key: string) {
    Walkable(g, owner) && exists k | 0 <= k < |g[owner].props| ::
      g[owner].props[k].key == key && IsPin(g[owner].props[k])
  }

  /** A hit is a real path: its keys lead from `a`, past `trail`, to an object that holds the pin. */
  ghost predicate Real(g: Graph, avoid: set<nat>, a: nat, trail: seq<string>, h: Hit) {
    exists keys, key :: h.trail == trail + keys + [key] && Leads(g, avoid, a, keys, h.owner) && PinAt(g, h.owner, key)
  }

  predicate Recorded(found: seq<Hit>, owner: nat, key: string) {
    exists n | 0 <= n < |found| :: found[n].owner == owner && found[n].trail != []
      && found[n].trail[|found[n].trail| - 1] == key
  }

  /** The property has been dealt with: its object seen, or its pin recorded. */
  predicate PropDone(g: Graph, st: State, id: nat, p: Prop) {
    if IsPin(p) then Recorded(st.found, id, p.key) else p.value.Ref? && p.value.id in g ==> p.value.id in st.seen
  }

  predicate NodeDone(g: Graph, st: State, id: nat) {
    Walkable(g, id) ==> forall k | 0 <= k < |g[id].props| :: PropDone(g, st, id, g[id].props[k])
  }

  /** What one part of the walk, started at `a` under `trail`, adds to the state. */
  ghost predicate Adds(g: Graph, avoid: set<nat>, a: nat, trail: seq<string>, st: State, r: State) {
    && (forall x | x in r.seen && x !in st.seen :: x in g && NodeDone(g, r, x) && Reaches(g, avoid, a, x))
    && (forall n | |st.found| <= n < |r.found| ::
         Real(g, avoid, a, trail, r.found[n]) && (r.found[n].owner == a || r.found[n].owner !in st.seen))
  }

  lemma RecordedStays(a: seq<Hit>, b: seq<Hit>, owner: nat, key: string)
    requires a <= b && Recorded(a, owner, key)
    ensures Recorded(b, owner, key)
  {
    var n :| 0 <= n < |a| && a[n].owner == owner && a[n].trail != [] && a[n].trail[|a[n].trail| - 1] == key;
    assert b[n] == a[n];
  }

  lemma DoneStays(g: Graph, a: State, b: State, id: nat)
    requires a.seen <= b.seen && a.found <= b.found
    ensures forall p | PropDone(g, a, id, p) :: PropDone(g, b, id, p)
    ensures NodeDone(g, a, id) ==> NodeDone(g, b, id)
  {
    forall p | PropDone(g, a, id, p) ensures PropDone(g, b, id, p) {
      if IsPin(p) { RecordedStays(a.found, b.found, id, p.key); }
    }
  }

  lemma AddsTwice(g: Graph, avoid: set<nat>, a: nat, trail: seq<string>, st: State, m: State, r: State)
    requires st.seen <= m.seen <= r.seen && st.found <= m.found <= r.found
    requires Adds(g, avoid, a, trail, st, m) && Adds(g, avoid, a, trail, m, r)
    ensures Adds(g, avoid, a, trail, st, r)
  {
    forall x | x in r.seen && x !in st.seen ensures x in g && NodeDone(g, r, x) && Reaches(g, avoid, a, x) {
      if x in m.seen { DoneStays(g, m, r, x); }
    }
    forall n | |st.found| <= n < |r.found| ensures Real(g, avoid, a, trail, r.found[n])
      && (r.found[n].owner == a || r.found[n].owner !in st.seen) {
      if n < |m.found| { assert r.found[n] == m.found[n]; }
    }
  }

  /** One edge in front of everything below it. */
  lemma AddsBehind(g: Graph, avoid: set<nat>, a: nat, key: string, b: nat, trail: seq<string>, st: State, r: State)
    requires a !in avoid && Edge(g, a, key, b) && Adds(g, avoid, b, trail + [key], st, r) && (b in st.seen ==> r == st)
    ensures Adds(g, avoid, a, trail, st, r)
  {
    forall x | x in r.seen && x !in st.seen ensures Reaches(g, avoid, a, x) {
      var keys :| Leads(g, avoid, b, keys, x);
      LeadsBehind(g, avoid, a, key, b, keys, x);
    }
    forall n | |st.found| <= n < |r.found| ensures Real(g, avoid, a, trail, r.found[n]) {
      RealBehind(g, avoid, a, key, b, trail, r.found[n]);
    }
  }

  lemma LeadsBehind(g: Graph, avoid: set<nat>, a: nat, key: string, b: nat, keys: seq<string>, x: nat)
    requires a !in avoid && Edge(g, a, key, b) && Leads(g, avoid, b, keys, x)
    ensures Leads(g, avoid, a, [key] + keys, x)
  {
    assert ([key] + keys)[1..] == keys;
  }

  lemma RealBehind(g: Graph, avoid: set<nat>, a: nat, key: string, b: nat, trail: seq<string>, h: Hit)
    requires a !in avoid && Edge(g, a, key, b) && Real(g, avoid, b, trail + [key], h)
    ensures Real(g, avoid, a, trail, h)
  {
    var keys, last :| h.trail == trail + [key] + keys + [last] && Leads(g, avoid, b, keys, h.owner)
      && PinAt(g, h.owner, last);
    LeadsBehind(g, avoid, a, key, b, keys, h.owner);
    assert h.trail == trail + ([key] + keys) + [last];
  }

  lemma {:induction false} VisitAdds(g: Graph, st: State, v: Value, trail: seq<string>, avoid: set<nat>)
    requires avoid <= st.seen
    ensures v.Ref? ==> Adds(g, avoid, v.id, trail, st, Visit(g, st, v, trail))
    ensures !v.Ref? ==> Visit(g, st, v, trail) == st
    ensures v.Ref? && v.id in g ==> v.id in Visit(g, st, v, trail).seen
    decreases |g.Keys - st.seen|, 0, 0
  {
    if v.Ref? && v.id in g && v.id !in st.seen {
      var id, r := v.id, Visit(g, st, v, trail);
      var st1 := State(st.found, st.seen + {id}, st.order + [id]);
      assert g.Keys - st1.seen < g.Keys - st.seen by { assert id in g.Keys - st.seen; }
      SmallerSet(g.Keys - st1.seen, g.Keys - st.seen);
      if !g[id].opaqueKind { PropsAdd(g, st1, id, |g[id].props|, trail, avoid); }
      assert Leads(g, avoid, id, [], id);
      assert forall x | x in r.seen && x !in st.seen :: x == id || x !in st1.seen;
    }
  }

  lemma {:induction false} PropsAdd(g: Graph, st: State, id: nat, k: nat, trail: seq<string>, avoid: set<nat>)
    requires Walkable(g, id) && k <= |g[id].props| && avoid <= st.seen && id !in avoid
    ensures Adds(g, avoid, id, trail, st, VisitProps(g, st, id, k, trail))
    ensures forall j | 0 <= j < k :: PropDone(g, VisitProps(g, st, id, k, trail), id, g[id].props[j])
    decreases |g.Keys - st.seen|, k, 0
  {
    if k > 0 {
      var m, r := VisitProps(g, st, id, k - 1, trail), VisitProps(g, st, id, k, trail);
      SubsetSize(g.Keys - m.seen, g.Keys - st.seen);
      PropsAdd(g, st, id, k - 1, trail, avoid);
      PropAdds(g, m, id, k - 1, trail, avoid);
      AddsTwice(g, avoid, id, trail, st, m, r);
      DoneStays(g, m, r, id);
    }
  }

  lemma {:induction false} PropAdds(g: Graph, st: State, id: nat, k: nat, trail: seq<string>, avoid: set<nat>)
    requires Walkable(g, id) && k < |g[id].props| && avoid <= st.seen && id !in avoid
    ensures Adds(g, avoid, id, trail, st, VisitProp(g, st, id, g[id].props[k], trail))
    ensures PropDone(g, VisitProp(g, st, id, g[id].props[k], trail), id, g[id].props[k])
    decreases |g.Keys - st.seen|, 0, 1
  {
    var p := g[id].props[k];
    var r := VisitProp(g, st, id, p, trail);
    if IsPin(p) {
      assert Leads(g, avoid, id, [], id) && PinAt(g, id, p.key) && r.found[|st.found|].trail == trail + [] + [p.key];
    } else {
      VisitAdds(g, st, p.value, trail + [p.key], avoid);
      if p.value.Ref? && p.value.id in g {
        assert g[id].props[k] == Prop(p.key, Ref(p.value.id));
        assert Edge(g, id, p.key, p.value.id);
        AddsBehind(g, avoid, id, p.key, p.value.id, trail, st, r);
      }
    }
  }

  /** Following references never leaves a set of finished objects. */
  lemma {:induction false} FinishedIsClosed(g: Graph, st: State, avoid: set<nat>, a: nat, keys: seq<string>, b: nat)
    requires a in st.seen && Leads(g, avoid, a, keys, b)
    requires forall x | x in st.seen && x !in avoid :: NodeDone(g, st, x)
    ensures b in st.seen
    decreases |keys|
  {
    if keys != [] {
      var mid :| Edge(g, a, keys[0], mid) && Leads(g, avoid, mid, keys[1..], b);
      var k :| 0 <= k < |g[a].props| && g[a].props[k] == Prop(keys[0], Ref(mid));
      assert PropDone(g, st, a, g[a].props[k]);
      FinishedIsClosed(g, st, avoid, mid, keys[1..], b);
    }
  }

  /** An object reachable from the root carries this pin. */
  ghost predicate PinnedFrom(g: Graph, root: nat, owner: nat, key: string) {
    Reaches(g, {}, root, owner) && PinAt(g, owner, key)
  }

  /**
   * The scan on any graph, cyclic or not: the hits are real root-to-pin paths, and every pin of every
   * reachable object is among them.
   */
  lemma ScanIsExact(g: Graph, root: nat)
    requires root in g
    ensures forall n | 0 <= n < |Scanned(g, root).found| :: Real(g, {}, root, [], Scanned(g, root).found[n])
    ensures forall owner, key :: PinnedFrom(g, root, owner, key) <==> Recorded(Scanned(g, root).found, owner, key)
    ensures forall x | x in g :: x in Scanned(g, root).seen <==> Reaches(g, {}, root, x)
  {
    var r := Scanned(g, root);
    VisitAdds(g, Start, Ref(root), [], {});
    forall x | Reaches(g, {}, root, x) ensures x in r.seen {
      var keys :| Leads(g, {}, root, keys, x);
      FinishedIsClosed(g, r, {}, root, keys, x);
    }
    forall owner, key | PinnedFrom(g, root, owner, key) ensures Recorded(r.found, owner, key) {
      var k :| 0 <= k < |g[owner].props| && g[owner].props[k].key == key && IsPin(g[owner].props[k]);
      assert PropDone(g, r, owner, g[owner].props[k]);
    }
    forall owner, key | Recorded(r.found, owner, key) ensures PinnedFrom(g, root, owner, key) {
      var n :| 0 <= n < |r.found| && r.found[n].owner == owner && r.found[n].trail != []
        && r.found[n].trail[|r.found[n].trail| - 1] == key;
      var keys, last :| r.found[n].trail == [] + keys + [last] && Leads(g, {}, root, keys, owner)
        && PinAt(g, owner, last);
    }
  }

  // No object is entered twice.

  ghost predicate EnteredOnce(st: State) {
    && (forall i, j | 0 <= i < j < |st.order| :: st.order[i] != st.order[j])
    && (forall x :: x in st.order <==> x in st.seen)
  }

  lemma {:induction false} VisitEntersOnce(g: Graph, st: State, v: Value, trail: seq<string>)
    requires EnteredOnce(st)
    ensures EnteredOnce(Visit(g, st, v, trail))
    decreases |g.Keys - st.seen|, 0, 0
  {
    if v.Ref? && v.id in g && v.id !in st.seen {
      var st1 := State(st.found, st.seen + {v.id}, st.order + [v.id]);
      assert g.Keys - st1.seen < g.Keys - st.seen by { assert v.id in g.Keys - st.seen; }
      SmallerSet(g.Keys - st1.seen, g.Keys - st.seen);
      assert forall x :: x in st1.order <==> x in st.order || x == v.id;
      if !g[v.id].opaqueKind { PropsEnterOnce(g, st1, v.id, |g[v.id].props|, trail); }
    }
  }

  lemma {:induction false} PropsEnterOnce(g: Graph, st: State, id: nat, k: nat, trail: seq<string>)
    requires id in g && k <= |g[id].props| && EnteredOnce(st)
    ensures EnteredOnce(VisitProps(g, st, id, k, trail))
    decreases |g.Keys - st.seen|, k, 0
  {
    if k > 0 {
      var m := VisitProps(g, st, id, k - 1, trail);
      SubsetSize(g.Keys - m.seen, g.Keys - st.seen);
      PropsEnterOnce(g, st, id, k - 1, trail);
      var p := g[id].props[k - 1];
      if !IsPin(p) { VisitEntersOnce(g, m, p.value, trail + [p.key]); }
    }
  }

  /** The scan enters every object at most once. */
  lemma NoObjectTwice(g: Graph, root: nat)
    ensures forall i, j | 0 <= i < j < |Scanned(g, root).order| ::
            Scanned(g, root).order[i] != Scanned(g, root).order[j]
  {
    VisitEntersOnce(g, Start, Ref(root), []);
  }

  // ---------------------------------------------------------------------------
  // Exemptions
  // ---------------------------------------------------------------------------

  /** The `i`-th key of the root reaches the object without passing through the root again. */
  ghost predicate ReachedBy(g: Graph, root: nat, i: nat, x: nat)
    requires root in g
  {
    i < |g[root].props| && g[root].props[i].value.Ref? && g[root].props[i].value.id in g
      && Reaches(g, {root}, g[root].props[i].value.id, x)
  }

  /** In walk order, the first root key that reaches the object. */
  ghost predicate First(g: Graph, root: nat, i: nat, x: nat)
    requires root in g
  {
    ReachedBy(g, root, i, x) && forall j: nat | j < i :: !ReachedBy(g, root, j, x)
  }

  /**
   * The root key a pin is reported under: its own, for a pin of the root itself, or the first that reaches its
   * object.
   */
  ghost predicate Under(g: Graph, root: nat, owner: nat, key: string, top: string)
    requires root in g
  {
    if owner == root then top == key else exists i: nat :: First(g, root, i, owner) && top == g[root].props[i].key
  }

  ghost predicate UnderItsKey(g: Graph, root: nat, h: Hit)
    requires root in g
  {
    h.trail != [] && Under(g, root, h.owner, h.trail[|h.trail| - 1], h.trail[0])
  }

  lemma {:induction false} LeadsOutside(g: Graph, avoid: set<nat>, a: nat, keys: seq<string>, b: nat)
    requires Leads(g, avoid, a, keys, b)
    ensures b !in avoid
    decreases |keys|
  {
    if keys != [] {
      var mid :| Edge(g, a, keys[0], mid) && Leads(g, avoid, mid, keys[1..], b);
      LeadsOutside(g, avoid, mid, keys[1..], b);
    }
  }

  /** After the first `k` root keys: what is seen is what they reach, and hits stand under the first key that does. */
  ghost predicate Progress(g: Graph, root: nat, k: nat, st: State)
    requires root in g
  {
    && root in st.seen
    && (forall x | x != root :: x in st.seen <==> exists j: nat | j < k :: ReachedBy(g, root, j, x))
    && (forall x | x in st.seen && x != root :: NodeDone(g, st, x))
    && (forall n | 0 <= n < |st.found| :: UnderItsKey(g, root, st.found[n]))
  }

  lemma {:induction false} RootProgress(g: Graph, root: nat, st: State, k: nat)
    requires Walkable(g, root) && k <= |g[root].props| && st.seen == {root} && st.found == []
    ensures Progress(g, root, k, VisitProps(g, st, root, k, []))
  {
    if k > 0 {
      RootProgress(g, root, st, k - 1);
      var m := VisitProps(g, st, root, k - 1, []);
      if IsPin(g[root].props[k - 1]) {
        PinProgress(g, root, k - 1, m);
      } else {
        RefProgress(g, root, k - 1, m);
      }
    }
  }

  lemma PinProgress(g: Graph, root: nat, i: nat, m: State)
    requires Walkable(g, root) && i < |g[root].props| && Progress(g, root, i, m) && IsPin(g[root].props[i])
    ensures Progress(g, root, i + 1, VisitProp(g, m, root, g[root].props[i], []))
  {
    var r := VisitProp(g, m, root, g[root].props[i], []);
    assert forall x :: !ReachedBy(g, root, i, x);
    forall x | x in r.seen && x != root ensures NodeDone(g, r, x) { DoneStays(g, m, r, x); }
    assert [] + [g[root].props[i].key] == [g[root].props[i].key];
  }

  lemma RefProgress(g: Graph, root: nat, i: nat, m: State)
    requires Walkable(g, root) && i < |g[root].props| && Progress(g, root, i, m) && !IsPin(g[root].props[i])
    ensures Progress(g, root, i + 1, VisitProp(g, m, root, g[root].props[i], []))
  {
    var p := g[root].props[i];
    var r := VisitProp(g, m, root, p, []);
    VisitAdds(g, m, p.value, [] + [p.key], {root});
    forall x | x in r.seen && x != root ensures NodeDone(g, r, x) {
      if x in m.seen { DoneStays(g, m, r, x); }
    }
    forall x | ReachedBy(g, root, i, x) ensures x in r.seen && x != root {
      var keys :| Leads(g, {root}, p.value.id, keys, x);
      FinishedIsClosed(g, r, {root}, p.value.id, keys, x);
      LeadsOutside(g, {root}, p.value.id, keys, x);
    }
    forall x | x != root ensures x in r.seen <==> exists j: nat | j < i + 1 :: ReachedBy(g, root, j, x) {
      if x in r.seen && x !in m.seen { assert ReachedBy(g, root, i, x); }
    }
    forall n | 0 <= n < |r.found| ensures UnderItsKey(g, root, r.found[n]) {
      if n < |m.found| { assert r.found[n] == m.found[n]; } else { NewHitUnderKey(g, root, i, m, r, n); }
    }
  }

  lemma NewHitUnderKey(g: Graph, root: nat, i: nat, m: State, r: State, n: nat)
    requires Walkable(g, root) && i < |g[root].props| && Progress(g, root, i, m) && !IsPin(g[root].props[i])
    requires r == VisitProp(g, m, root, g[root].props[i], []) && |m.found| <= n < |r.found|
    ensures UnderItsKey(g, root, r.found[n])
  {
    var p, h := g[root].props[i], r.found[n];
    VisitAdds(g, m, p.value, [] + [p.key], {root});
    var keys, key :| h.trail == [] + [p.key] + keys + [key] && Leads(g, {root}, p.value.id, keys, h.owner)
      && PinAt(g, h.owner, key);
    LeadsOutside(g, {root}, p.value.id, keys, h.owner);
    assert ReachedBy(g, root, i, h.owner);
    assert h.owner !in m.seen;
    assert First(g, root, i, h.owner);
  }

  /** What follows a dot does not change the first segment. */
  lemma {:induction false} SplitAtFirstDot(a: string, rest: string)
    requires rest == "" || rest[0] == '.'
    ensures FirstSegment(a + rest) == FirstSegment(a)
  {
    if a == "" {
      assert a + rest == rest;
    } else {
      assert (a + rest)[1..] == a[1..] + rest;
      SplitAtFirstDot(a[1..], rest);
    }
  }

  /** The first key of the trail that is not empty: empty keys leave nothing in a path while it is empty. */
  function Lead(trail: seq<string>): string {
    if trail == [] then "" else if trail[0] != "" then trail[0] else Lead(trail[1..])
  }

  lemma {:induction false} LeadSnoc(trail: seq<string>, key: string)
    ensures Lead(trail + [key]) == if Lead(trail) != "" then Lead(trail) else key
  {
    if trail == [] {
      assert [key][1..] == [] && [] + [key] == [key];
    } else {
      assert (trail + [key])[1..] == trail[1..] + [key];
      LeadSnoc(trail[1..], key);
    }
  }

  lemma {:induction false} PathStartsWithLead(trail: seq<string>) returns (rest: string)
    ensures PathText(trail) == Lead(trail) + rest && (rest == "" || rest[0] == '.')
    ensures Lead(trail) == "" ==> rest == ""
  {
    if trail == [] {
      rest := "";
    } else {
      var before, key := trail[..|trail| - 1], trail[|trail| - 1];
      rest := PathStartsWithLead(before);
      LeadSnoc(before, key);
      assert trail == before + [key];
      if Lead(before) != "" {
        assert Lead(before) + rest + "." + key == Lead(before) + (rest + "." + key);
        rest := rest + "." + key;
      } else {
        assert PathText(before) == "";
      }
    }
  }

  /** For any trail, empty and dotted keys included, the path's first segment is that of its first non-empty key. */
  lemma FirstSegmentOfPath(trail: seq<string>)
    ensures FirstSegment(PathText(trail)) == FirstSegment(Lead(trail))
  {
    var rest := PathStartsWithLead(trail);
    SplitAtFirstDot(Lead(trail), rest);
  }

  /** A path is its keys joined by dots, once empty keys in front are dropped. */
  lemma {:induction false} PathIsJoined(trail: seq<string>)
    requires trail != []
    ensures trail[0] != "" ==> PathText(trail) == JoinDots(trail)
    ensures trail[0] == "" ==> PathText(trail) == PathText(trail[1..])
  {
    var n := |trail| - 1;
    var before, key := trail[..n], trail[n];
    if n == 0 {
      assert PathText(trail) == Child(PathText([]), key);
    } else {
      PathIsJoined(before);
      if trail[0] != "" {
        JoinedSnoc(before, key);
        assert before + [key] == trail;
        JoinedIsNamed(before);
      } else {
        assert trail[1..][..n - 1] == before[1..] && trail[1..][n - 1] == key;
      }
    }
  }

  lemma {:induction false} JoinedSnoc(parts: seq<string>, key: string)
    requires parts != []
    ensures JoinDots(parts + [key]) == JoinDots(parts) + "." + key
  {
    if |parts| == 1 {
      assert (parts + [key])[1..] == [key];
    } else {
      assert (parts + [key])[1..] == parts[1..] + [key];
      JoinedSnoc(parts[1..], key);
    }
  }

  lemma JoinedIsNamed(parts: seq<string>)
    requires parts != [] && parts[0] != ""
    ensures JoinDots(parts) != ""
  {
  }

  predicate NamedRootKeys(g: Graph, root: nat)
    requires root in g
  {
    forall k | 0 <= k < |g[root].props| :: g[root].props[k].key != ""
  }

  lemma {:induction false} UnexemptedMembers(found: seq<string>, exempt: set<string>)
    ensures forall path :: path in Unexempted(found, exempt) <==> path in found && FirstSegment(path) !in exempt
  {
    if found != [] {
      UnexemptedMembers(found[..|found| - 1], exempt);
      assert found == found[..|found| - 1] + [found[|found| - 1]];
    }
  }

  /** The pin is among the reported paths. */
  ghost predicate Reported(g: Graph, root: nat, exempt: set<string>, owner: nat, key: string) {
    exists n | 0 <= n < |Scanned(g, root).found| ::
      IsHit(Scanned(g, root).found[n], owner, key)
        && PathText(Scanned(g, root).found[n].trail) in Find(g, root, exempt)
  }

  predicate IsHit(h: Hit, owner: nat, key: string) {
    h.owner == owner && h.trail != [] && h.trail[|h.trail| - 1] == key
  }

  lemma AllHitsUnderKeys(g: Graph, root: nat)
    requires root in g
    ensures forall n | 0 <= n < |Scanned(g, root).found| :: UnderItsKey(g, root, Scanned(g, root).found[n])
  {
    if !g[root].opaqueKind {
      RootProgress(g, root, State([], {} + {root}, [] + [root]), |g[root].props|);
    }
  }

  lemma RootKeyIsNamed(g: Graph, root: nat, h: Hit)
    requires root in g && NamedRootKeys(g, root) && UnderItsKey(g, root, h) && Real(g, {}, root, [], h)
    ensures h.trail[0] != ""
  {
    var key := h.trail[|h.trail| - 1];
    if h.owner == root {
      var keys, last :| h.trail == [] + keys + [last] && Leads(g, {}, root, keys, h.owner) && PinAt(g, h.owner, last);
      var k :| 0 <= k < |g[root].props| && g[root].props[k].key == last;
    } else {
      var i: nat :| First(g, root, i, h.owner) && h.trail[0] == g[root].props[i].key;
    }
  }

  /**
   * The filter, hit by hit, on any graph: a hit is reported unless its first non-empty key has an exempted first
   * segment.
   */
  lemma HitIsReported(g: Graph, root: nat, exempt: set<string>, n: nat)
    requires n < |Scanned(g, root).found|
    ensures PathText(Scanned(g, root).found[n].trail) in Find(g, root, exempt) <==>
            FirstSegment(Lead(Scanned(g, root).found[n].trail)) !in exempt
  {
    var found := Scanned(g, root).found;
    UnexemptedMembers(Texts(found), exempt);
    FirstSegmentOfPath(found[n].trail);
    assert Texts(found)[n] == PathText(found[n].trail);
  }

  lemma TopIsUnique(g: Graph, root: nat, owner: nat, key: string, t1: string, t2: string)
    requires root in g && Under(g, root, owner, key, t1) && Under(g, root, owner, key, t2)
    ensures t1 == t2
  {
    if owner != root {
      var i: nat :| First(g, root, i, owner) && t1 == g[root].props[i].key;
      var j: nat :| First(g, root, j, owner) && t2 == g[root].props[j].key;
      assert i == j;
    }
  }

  /**
   * With exemptions, exactly: a reachable pin is reported if and only if the first segment of the first root
   * key, in walk order, that reaches its object is not exempt. For a key without dots the segment is the key.
   */
  lemma ExemptionIsExact(g: Graph, root: nat, exempt: set<string>, owner: nat, key: string, top: string)
    requires root in g && NamedRootKeys(g, root) && PinnedFrom(g, root, owner, key) && Under(g, root, owner, key, top)
    ensures Reported(g, root, exempt, owner, key) <==> FirstSegment(top) !in exempt
    ensures '.' !in top ==> FirstSegment(top) == top
  {
    var found := Scanned(g, root).found;
    ScanIsExact(g, root);
    AllHitsUnderKeys(g, root);
    forall n | 0 <= n < |found| && IsHit(found[n], owner, key)
      ensures PathText(found[n].trail) in Find(g, root, exempt) <==> FirstSegment(top) !in exempt
    {
      RootKeyIsNamed(g, root, found[n]);
      HitIsReported(g, root, exempt, n);
      TopIsUnique(g, root, owner, key, top, found[n].trail[0]);
    }
    assert Recorded(found, owner, key);
    var n :| 0 <= n < |found| && found[n].owner == owner && found[n].trail != []
      && found[n].trail[|found[n].trail| - 1] == key;
    assert IsHit(found[n], owner, key);
    if '.' !in top { PlainSegment(top); }
  }

  lemma {:induction false} PlainSegment(key: string)
    requires '.' !in key
    ensures FirstSegment(key) == key
  {
    if key != "" { PlainSegment(key[1..]); }
  }

  /** Without exemptions the report is empty exactly when no reachable object carries a pin. */
  lemma NoExemptions(g: Graph, root: nat)
    requires root in g
    ensures Find(g, root, {}) == [] <==> forall owner, key :: !PinnedFrom(g, root, owner, key)
  {
    var found := Scanned(g, root).found;
    ScanIsExact(g, root);
    NothingExempt(Texts(found));
    if found != [] {
      var keys, key :| found[0].trail == [] + keys + [key] && Leads(g, {}, root, keys, found[0].owner)
        && PinAt(g, found[0].owner, key);
      assert Recorded(found, found[0].owner, key);
    } else {
      assert forall owner, key :: !Recorded(found, owner, key);
    }
  }

  lemma {:induction false} NothingExempt(found: seq<string>)
    ensures Unexempted(found, {}) == found
  {
    if found != [] { NothingExempt(found[..|found| - 1]); }
  }

  lemma {:induction false} SomeKeyIsFirst(g: Graph, root: nat, i: nat, x: nat) returns (first: nat)
    requires root in g && ReachedBy(g, root, i, x)
    ensures first <= i && First(g, root, first, x)
  {
    if j: nat :| j < i && ReachedBy(g, root, j, x) { first := SomeKeyIsFirst(g, root, j, x); } else { first := i; }
  }

  predicate Exempted(g: Graph, root: nat, exempt: set<string>, i: nat)
    requires root in g
  {
    i < |g[root].props| && FirstSegment(g[root].props[i].key) in exempt
  }

  /**
   * The exempted keys take nothing first that another key reaches; so it is when they come last, or share no object.
   */
  ghost predicate ExemptKeysStandApart(g: Graph, root: nat, exempt: set<string>)
    requires root in g
  {
    forall i: nat, j: nat, x | j < i && ReachedBy(g, root, j, x) && ReachedBy(g, root, i, x)
      && Exempted(g, root, exempt, j) ::
      Exempted(g, root, exempt, i)
  }

  /** Then every pin below a root key that is not exempt is reported. */
  lemma CompleteOutsideExemptions(g: Graph, root: nat, exempt: set<string>, i: nat, owner: nat, key: string)
    requires root in g && NamedRootKeys(g, root) && ExemptKeysStandApart(g, root, exempt) && owner != root
    requires ReachedBy(g, root, i, owner) && !Exempted(g, root, exempt, i) && PinnedFrom(g, root, owner, key)
    ensures Reported(g, root, exempt, owner, key)
  {
    var first := SomeKeyIsFirst(g, root, i, owner);
    ExemptionIsExact(g, root, exempt, owner, key, g[root].props[first].key);
  }

  /** It holds when the exempted keys come after all others. */
  lemma ExemptLastStandsApart(g: Graph, root: nat, exempt: set<string>)
    requires root in g && forall i, j | 0 <= j < i < |g[root].props| && Exempted(g, root, exempt, j) ::
             Exempted(g, root, exempt, i)
    ensures ExemptKeysStandApart(g, root, exempt)
  {
  }

  // Two roots where a pin goes unreported although a key that is not exempt leads to it.

  const PINNED: Node := Node(false, [Prop("tenantId", Str("t"))])

  /** `tenancy` and `orders` share an object; the exempted key comes first. */
  const SHARED: Graph := map[0 := Node(false, [Prop("tenancy", Ref(1)), Prop("orders", Ref(1))]), 1 := PINNED]

  /** One root key with a dot in it. */
  const DOTTED: Graph := map[0 := Node(false, [Prop("tenancy.x", Ref(1))]), 1 := PINNED]

  lemma PinIsReached(g: Graph, i: nat)
    requires 0 in g && 1 in g && g[1] == PINNED && !g[0].opaqueKind && i < |g[0].props| && g[0].props[i].value == Ref(1)
    ensures ReachedBy(g, 0, i, 1) && PinnedFrom(g, 0, 1, "tenantId")
  {
    var key := g[0].props[i].key;
    assert g[0].props[i] == Prop(key, Ref(1)) && Edge(g, 0, key, 1);
    assert Leads(g, {0}, 1, [], 1) && Leads(g, {}, 1, [], 1);
    assert [key][1..] == [];
    assert Leads(g, {}, 0, [key], 1);
    assert IsPin(g[1].props[0]);
  }

  /** A shared object is hidden by an exempted key that comes first, although `orders` reaches it too. */
  lemma SharedObjectIsHidden()
    ensures ReachedBy(SHARED, 0, 1, 1) && SHARED[0].props[1].key == "orders" && PinnedFrom(SHARED, 0, 1, "tenantId")
    ensures !Reported(SHARED, 0, {"tenancy"}, 1, "tenantId")
  {
    PinIsReached(SHARED, 0);
    PinIsReached(SHARED, 1);
    assert First(SHARED, 0, 0, 1);
    assert '.' !in "tenancy";
    ExemptionIsExact(SHARED, 0, {"tenancy"}, 1, "tenantId", "tenancy");
  }

  /** A dotted root key is exempted by its first segment. */
  lemma DottedKeyIsHidden()
    ensures ReachedBy(DOTTED, 0, 0, 1) && DOTTED[0].props[0].key !in {"tenancy"} && PinnedFrom(DOTTED, 0, 1, "tenantId")
    ensures !Reported(DOTTED, 0, {"tenancy"}, 1, "tenantId")
  {
    PinIsReached(DOTTED, 0);
    assert First(DOTTED, 0, 0, 1);
    ExemptionIsExact(DOTTED, 0, {"tenancy"}, 1, "tenantId", "tenancy.x");
    DottedSegment();
  }

  lemma DottedSegment()
    ensures FirstSegment("tenancy.x") == "tenancy"
  {
    assert "tenancy.x" == "tenancy" + ".x" && '.' !in "tenancy";
    SplitAtFirstDot("tenancy", ".x");
    PlainSegment("tenancy");
  }
}
