/** The diff as a patch: `l9_ci/governance/authority.py:133-243` loses nothing and reverses. */
module AuthorityPatch {
  import opened Order
  import opened Text
  import opened Wrappers
  import opened Authority

  // ----------------------------------------------------- applying a change

  function At(v: Views, name: string): Option<Governed> { if name in v then Some(v[name]) else None }

  /** What one reported change says about the action it names. */
  function Edit(g: Option<Governed>, c: Change): Option<Governed> {
    match c
    case ActionAdded(_, view) => Some(view)
    case ActionRemoved(_, _) => None
    case FieldAdded(_, f, v) => if g.Some? then Some(g.value.With(f, v)) else None
    case FieldRemoved(_, f, _) => if g.Some? then Some(g.value.With(f, Absent)) else None
    case Moved(_, f, _, _, v) => if g.Some? then Some(g.value.With(f, v)) else None
    case ItemRemoved(_, c, x) => if g.Some? then Some(g.value.WithSet(c, g.value.Set(c) - {x})) else None
    case ItemAdded(_, c, x) => if g.Some? then Some(g.value.WithSet(c, g.value.Set(c) + {x})) else None
  }

  function Apply(v: Views, c: Change): Views {
    var g := Edit(At(v, c.name), c);
    if g.Some? then v[c.name := g.value] else v - {c.name}
  }

  function ApplyAll(v: Views, cs: seq<Change>): Views
    decreases |cs|
  {
    if cs == [] then v else ApplyAll(Apply(v, cs[0]), cs[1..])
  }

  function EditAll(g: Option<Governed>, cs: seq<Change>): Option<Governed>
    decreases |cs|
  {
    if cs == [] then g else EditAll(Edit(g, cs[0]), cs[1..])
  }

  function About(name: string): Change -> bool { (c: Change) => c.name == name }

  lemma EditCons(g: Option<Governed>, c: Change, cs: seq<Change>)
    ensures EditAll(g, [c] + cs) == EditAll(Edit(g, c), cs)
  {
    assert ([c] + cs)[1..] == cs;
  }

  lemma AppliedOnce(v: Views, c: Change, name: string)
    ensures At(Apply(v, c), name) == if c.name == name then Edit(At(v, name), c) else At(v, name)
  {
  }

  /** One action sees only the changes that name it. */
  lemma {:induction false} AppliedAt(v: Views, cs: seq<Change>, name: string)
    ensures At(ApplyAll(v, cs), name) == EditAll(At(v, name), Filter(cs, About(name)))
    decreases |cs|
  {
    if cs != [] {
      AppliedAt(Apply(v, cs[0]), cs[1..], name);
      AppliedOnce(v, cs[0], name);
      FilterCons(cs[0], cs[1..], About(name));
      assert [cs[0]] + cs[1..] == cs;
      var rest := Filter(cs[1..], About(name));
      EditCons(At(v, name), cs[0], rest);
      assert [] + rest == rest;
    }
  }

  lemma {:induction false} EditAppend(g: Option<Governed>, s: seq<Change>, t: seq<Change>)
    ensures EditAll(g, s + t) == EditAll(EditAll(g, s), t)
    decreases |s|
  {
    if s == [] {
      assert s + t == t;
    } else {
      assert (s + t)[0] == s[0] && (s + t)[1..] == s[1..] + t;
      EditAppend(Edit(g, s[0]), s[1..], t);
    }
  }

  // ------------------------------------------------- the changes of a name

  ghost predicate Names(f: string -> seq<Change>) { forall n, c | c in f(n) :: c.name == n }

  lemma {:induction false} FilterCollect(names: seq<string>, f: string -> seq<Change>, n: string)
    requires Distinct(names) && Names(f)
    ensures Filter(Collect(names, f), About(n)) == if n in names then f(n) else []
  {
    if names != [] {
      FilterAppend(f(names[0]), Collect(names[1..], f), About(n));
      FilterCollect(names[1..], f, n);
      assert names == [names[0]] + names[1..];
      assert forall k :: 0 <= k < |names| - 1 ==> names[1..][k] == names[k + 1];
      if names[0] == n { FilterAll(f(n), About(n)); } else { FilterNone(f(names[0]), About(n)); }
    }
  }

  lemma NamesBlocks(b: Views, a: Views)
    ensures Names(Added(a)) && Names(Removed(b))
  {
  }

  lemma NamesShared(b: Views, a: Views)
    ensures Names(Shared(b, a))
  {
    forall n, c | c in Shared(b, a)(n) ensures c.name == n { ActionNames(n, b[n], a[n], c); }
  }

  lemma ItemNames(name: string, k: Collection, gone: seq<string>, added: seq<string>, c: Change)
    requires c in Collect(gone, Removals(name, k)) + Collect(added, Additions(name, k))
    ensures c.name == name
  {
    CollectMember(gone, Removals(name, k), c);
    CollectMember(added, Additions(name, k), c);
  }

  lemma CollectionNames(name: string, o: Governed, n: Governed, c: Change)
    requires c in Collect(COLLECTIONS, ItemChanges(name, o, n))
    ensures c.name == name
  {
    var f := ItemChanges(name, o, n);
    CollectMember(COLLECTIONS, f, c);
    var k :| k in COLLECTIONS && c in f(k);
    ItemNames(name, k, SortedSet(o.Set(k) - n.Set(k)), SortedSet(n.Set(k) - o.Set(k)), c);
  }

  lemma FieldNames(name: string, o: Governed, n: Governed, fields: seq<RankedField>, c: Change)
    requires c in Collect(fields, FieldChanges(name, o, n))
    ensures c.name == name
  {
    CollectMember(fields, FieldChanges(name, o, n), c);
  }

  lemma ActionNames(name: string, o: Governed, n: Governed, c: Change)
    requires c in ActionChanges(name, o, n)
    ensures c.name == name
  {
    if c in Collect(COLLECTIONS, ItemChanges(name, o, n)) {
      CollectionNames(name, o, n, c);
    } else {
      FieldNames(name, o, n, RANKED, c);
    }
  }

  lemma FilterThree(p: seq<Change>, q: seq<Change>, r: seq<Change>, n: string)
    ensures Filter(p + q + r, About(n)) == Filter(p, About(n)) + Filter(q, About(n)) + Filter(r, About(n))
  {
    FilterAppend(p + q, r, About(n));
    FilterAppend(p, q, About(n));
  }

  lemma FilterBlock(p: set<string>, f: string -> seq<Change>, n: string)
    requires Names(f)
    ensures Filter(Collect(SortedSet(p), f), About(n)) == if n in p then f(n) else []
  {
    FilterCollect(SortedSet(p), f, n);
  }

  /** Over disjoint blocks of names, the changes about one name come from its own block. */
  lemma FilterBlocks(p: set<string>, f: string -> seq<Change>, q: set<string>, g: string -> seq<Change>,
                     r: set<string>, h: string -> seq<Change>, n: string)
    requires Names(f) && Names(g) && Names(h) && !(n in p && n in q) && !(n in p && n in r) && !(n in q && n in r)
    ensures Filter(Collect(SortedSet(p), f) + Collect(SortedSet(q), g) + Collect(SortedSet(r), h), About(n))
         == if n in p then f(n) else if n in q then g(n) else if n in r then h(n) else []
  {
    var cp, cq, cr := Collect(SortedSet(p), f), Collect(SortedSet(q), g), Collect(SortedSet(r), h);
    FilterThree(cp, cq, cr, n);
    FilterBlock(p, f, n);
    FilterBlock(q, g, n);
    FilterBlock(r, h, n);
    Alone(if n in p then f(n) else if n in q then g(n) else if n in r then h(n) else []);
  }

  lemma Alone(x: seq<Change>)
    ensures x + [] + [] == [] + x + [] == [] + [] + x == x
  {
  }

  lemma ChangesAbout(b: Views, a: Views, n: string)
    ensures Filter(Changes(b, a), About(n))
         == if n in a.Keys - b.Keys then Added(a)(n)
            else if n in b.Keys - a.Keys then Removed(b)(n)
            else if n in b.Keys * a.Keys then Shared(b, a)(n) else []
  {
    NamesBlocks(b, a);
    NamesShared(b, a);
    FilterBlocks(a.Keys - b.Keys, Added(a), b.Keys - a.Keys, Removed(b), b.Keys * a.Keys, Shared(b, a), n);
  }

  // ---------------------------------------------------- one shared action

  lemma FieldApplied(name: string, f: RankedField, o: Governed, n: Governed, g: Governed)
    requires GoodRanked(o.Field(f)) && GoodRanked(n.Field(f)) && !Unrankable(o.Field(f), n.Field(f))
    requires g.Field(f) == o.Field(f)
    ensures EditAll(Some(g), FieldChanges(name, o, n)(f)) == Some(g.With(f, n.Field(f)))
  {
    var cs := FieldChange(name, f, o.Field(f), n.Field(f));
    assert cs != [] ==> cs[1..] == [];
  }

  lemma {:induction false} RemovalsApplied(name: string, c: Collection, items: seq<string>, g: Governed)
    ensures EditAll(Some(g), Collect(items, Removals(name, c))) == Some(g.WithSet(c, g.Set(c) - Members(items)))
  {
    if items == [] {
      assert g.Set(c) - Members(items) == g.Set(c);
    } else {
      var h := g.WithSet(c, g.Set(c) - {items[0]});
      EditAppend(Some(g), [ItemRemoved(name, c, items[0])], Collect(items[1..], Removals(name, c)));
      RemovalsApplied(name, c, items[1..], h);
      assert items == [items[0]] + items[1..];
      assert h.Set(c) - Members(items[1..]) == g.Set(c) - Members(items);
    }
  }

  lemma {:induction false} AdditionsApplied(name: string, c: Collection, items: seq<string>, g: Governed)
    ensures EditAll(Some(g), Collect(items, Additions(name, c))) == Some(g.WithSet(c, g.Set(c) + Members(items)))
  {
    if items == [] {
      assert g.Set(c) + Members(items) == g.Set(c);
    } else {
      var h := g.WithSet(c, g.Set(c) + {items[0]});
      EditAppend(Some(g), [ItemAdded(name, c, items[0])], Collect(items[1..], Additions(name, c)));
      AdditionsApplied(name, c, items[1..], h);
      assert items == [items[0]] + items[1..];
      assert h.Set(c) + Members(items[1..]) == g.Set(c) + Members(items);
    }
  }

  lemma ListsApplied(name: string, c: Collection, gone: seq<string>, added: seq<string>, g: Governed)
    ensures EditAll(Some(g), Collect(gone, Removals(name, c)) + Collect(added, Additions(name, c)))
         == Some(g.WithSet(c, g.Set(c) - Members(gone) + Members(added)))
  {
    EditAppend(Some(g), Collect(gone, Removals(name, c)), Collect(added, Additions(name, c)));
    RemovalsApplied(name, c, gone, g);
    AdditionsApplied(name, c, added, g.WithSet(c, g.Set(c) - Members(gone)));
  }

  lemma MembersSorted(s: set<string>)
    ensures Members(SortedSet(s)) == s
  {
  }

  lemma ItemsApplied(name: string, c: Collection, o: Governed, n: Governed, g: Governed)
    requires g.Set(c) == o.Set(c)
    ensures EditAll(Some(g), ItemChanges(name, o, n)(c)) == Some(g.WithSet(c, n.Set(c)))
  {
    ListsApplied(name, c, SortedSet(o.Set(c) - n.Set(c)), SortedSet(n.Set(c) - o.Set(c)), g);
    MembersSorted(o.Set(c) - n.Set(c));
    MembersSorted(n.Set(c) - o.Set(c));
    assert g.Set(c) - (o.Set(c) - n.Set(c)) + (n.Set(c) - o.Set(c)) == n.Set(c);
  }

  lemma FieldsApplied(name: string, o: Governed, n: Governed)
    requires Recognised(o) && Recognised(n) && !ActionUnrankable(o, n)
    ensures EditAll(Some(o), Collect(RANKED, FieldChanges(name, o, n)))
         == Some(o.(mutation := n.mutation, approval := n.approval, replay := n.replay))
  {
    var f := FieldChanges(name, o, n);
    var g := o.With(MutationClass, n.mutation);
    var h := g.With(ApprovalMode, n.approval);
    FieldApplied(name, MutationClass, o, n, o);
    FieldApplied(name, ApprovalMode, o, n, g);
    FieldApplied(name, ReplaySafe, o, n, h);
    ThreeFields(f);
    EditAppend(Some(o), f(MutationClass) + f(ApprovalMode), f(ReplaySafe));
    EditAppend(Some(o), f(MutationClass), f(ApprovalMode));
  }

  lemma ThreeFields<T>(f: RankedField -> seq<T>)
    ensures Collect(RANKED, f) == f(MutationClass) + f(ApprovalMode) + f(ReplaySafe)
  {
    assert RANKED == [MutationClass] + ([ApprovalMode] + [ReplaySafe]);
    CollectAppend([MutationClass], [ApprovalMode] + [ReplaySafe], f);
    CollectAppend([ApprovalMode], [ReplaySafe], f);
  }

  lemma TwoCollections<T>(f: Collection -> seq<T>)
    ensures Collect(COLLECTIONS, f) == f(Provenance) + f(Dependencies)
  {
    assert COLLECTIONS == [Provenance] + [Dependencies];
    CollectAppend([Provenance], [Dependencies], f);
  }

  lemma CollectionsApplied(name: string, o: Governed, n: Governed, g: Governed)
    requires g.provenance == o.provenance && g.dependencies == o.dependencies
    ensures EditAll(Some(g), Collect(COLLECTIONS, ItemChanges(name, o, n)))
         == Some(g.(provenance := n.provenance, dependencies := n.dependencies))
  {
    var f := ItemChanges(name, o, n);
    ItemsApplied(name, Provenance, o, n, g);
    ItemsApplied(name, Dependencies, o, n, g.WithSet(Provenance, n.provenance));
    TwoCollections(f);
    EditAppend(Some(g), f(Provenance), f(Dependencies));
  }

  lemma ActionApplied(name: string, o: Governed, n: Governed)
    requires Recognised(o) && Recognised(n) && !ActionUnrankable(o, n)
    ensures EditAll(Some(o), ActionChanges(name, o, n)) == Some(n)
  {
    FieldsApplied(name, o, n);
    CollectionsApplied(name, o, n, o.(mutation := n.mutation, approval := n.approval, replay := n.replay));
    EditAppend(Some(o), Collect(RANKED, FieldChanges(name, o, n)), Collect(COLLECTIONS, ItemChanges(name, o, n)));
  }

  // ------------------------------------------------------------ the patch

  /** The diff is complete: applying it to `before` gives `after`. */
  lemma PatchRebuilds(b: Views, a: Views)
    requires AllRecognised(b) && AllRecognised(a) && !SomeUnrankable(b, a)
    ensures ApplyAll(b, Changes(b, a)) == a
  {
    var r := ApplyAll(b, Changes(b, a));
    forall n ensures At(r, n) == At(a, n) {
      AppliedAt(b, Changes(b, a), n);
      ChangesAbout(b, a, n);
      assert !Blocked(b, a, n);
      NameApplied(b, a, n);
    }
    SameAt(r, a);
  }

  lemma NameApplied(b: Views, a: Views, n: string)
    requires n in b ==> Recognised(b[n])
    requires n in a ==> Recognised(a[n])
    requires !Blocked(b, a, n)
    ensures EditAll(At(b, n), if n in a.Keys - b.Keys then Added(a)(n)
                              else if n in b.Keys - a.Keys then Removed(b)(n)
                              else if n in b.Keys * a.Keys then Shared(b, a)(n) else []) == At(a, n)
  {
    if n in b && n in a {
      ActionApplied(n, b[n], a[n]);
    } else if n in a {
      assert [ActionAdded(n, a[n])][1..] == [];
    } else if n in b {
      assert [ActionRemoved(n, b[n])][1..] == [];
    }
  }

  lemma SameAt(v: Views, w: Views)
    requires forall n :: At(v, n) == At(w, n)
    ensures v == w
  {
    forall n ensures n in v <==> n in w { assert At(v, n) == At(w, n); }
    forall n | n in v ensures v[n] == w[n] { assert At(v, n) == At(w, n); }
  }

  lemma SelfUnchanged(name: string, g: Governed)
    ensures ActionChanges(name, g, g) == []
  {
    CollectEmpty(RANKED, FieldChanges(name, g, g));
    forall c ensures ItemChanges(name, g, g)(c) == [] { assert g.Set(c) - g.Set(c) == {}; }
    CollectEmpty(COLLECTIONS, ItemChanges(name, g, g));
  }

  /** `changed` is false exactly when the two surfaces agree on every action and every governed field. */
  lemma ChangedIffDifferent(b: Views, a: Views)
    requires AllRecognised(b) && AllRecognised(a) && !SomeUnrankable(b, a)
    ensures Changes(b, a) == [] <==> b == a
  {
    PatchRebuilds(b, a);
    if b == a {
      assert a.Keys - b.Keys == {} && b.Keys - a.Keys == {};
      forall n ensures Shared(b, a)(n) == [] { if n in b { SelfUnchanged(n, b[n]); } }
      CollectEmpty(SortedSet(b.Keys * a.Keys), Shared(b, a));
    }
  }

  // ------------------------------------------------------------- reversal

  function Dual(c: Change): Change {
    match c
    case ActionAdded(n, v) => ActionRemoved(n, v)
    case ActionRemoved(n, v) => ActionAdded(n, v)
    case FieldAdded(n, f, v) => FieldRemoved(n, f, v)
    case FieldRemoved(n, f, v) => FieldAdded(n, f, v)
    case Moved(n, f, up, o, v) => Moved(n, f, !up, v, o)
    case ItemRemoved(n, c, x) => ItemAdded(n, c, x)
    case ItemAdded(n, c, x) => ItemRemoved(n, c, x)
  }

  /** The code a caller sees when before and after trade places. */
  function Opposite(c: Code): Code {
    match c
    case ActionAddedCode => ActionRemovedCode
    case ActionRemovedCode => ActionAddedCode
    case FieldAddedCode => FieldRemovedCode
    case FieldRemovedCode => FieldAddedCode
    case MutationEscalated => MutationReduced
    case MutationReduced => MutationEscalated
    case ApprovalWeakened => ApprovalStrengthened
    case ApprovalStrengthened => ApprovalWeakened
    case ReplayReduced => ReplayIncreased
    case ReplayIncreased => ReplayReduced
    case ProvenanceRemoved => ProvenanceAdded
    case ProvenanceAdded => ProvenanceRemoved
    case DependencyRemoved => DependencyAdded
    case DependencyAdded => DependencyRemoved
  }

  lemma DualCode(c: Change)
    ensures CodeOf(Dual(c)) == Opposite(CodeOf(c)) && Dual(Dual(c)) == c
  {
  }

  function DualOf(): Change -> seq<Change> { (c: Change) => [Dual(c)] }

  function Mirror(cs: seq<Change>): seq<Change> { Collect(cs, DualOf()) }

  /** Two functions report each other's duals about every name. */
  ghost predicate Dually(names: seq<string>, f: string -> seq<Change>, g: string -> seq<Change>) {
    forall n | n in names :: multiset(Mirror(f(n))) == multiset(g(n))
  }

  lemma {:induction false} MirrorBlock(names: seq<string>, f: string -> seq<Change>, g: string -> seq<Change>)
    requires Dually(names, f, g)
    ensures multiset(Mirror(Collect(names, f))) == multiset(Collect(names, g))
  {
    if names != [] {
      CollectAppend(f(names[0]), Collect(names[1..], f), DualOf());
      MirrorBlock(names[1..], f, g);
    }
  }

  lemma {:induction false} MirrorItems(name: string, c: Collection, items: seq<string>)
    ensures Mirror(Collect(items, Removals(name, c))) == Collect(items, Additions(name, c))
    ensures Mirror(Collect(items, Additions(name, c))) == Collect(items, Removals(name, c))
  {
    if items != [] {
      var x := items[0];
      CollectAppend([ItemRemoved(name, c, x)], Collect(items[1..], Removals(name, c)), DualOf());
      CollectAppend([ItemAdded(name, c, x)], Collect(items[1..], Additions(name, c)), DualOf());
      MirrorItems(name, c, items[1..]);
    }
  }

  lemma MirrorCollection(name: string, o: Governed, n: Governed, c: Collection)
    ensures multiset(Mirror(ItemChanges(name, o, n)(c))) == multiset(ItemChanges(name, n, o)(c))
  {
    var gone, fresh_ := SortedSet(o.Set(c) - n.Set(c)), SortedSet(n.Set(c) - o.Set(c));
    CollectAppend(Collect(gone, Removals(name, c)), Collect(fresh_, Additions(name, c)), DualOf());
    MirrorItems(name, c, gone);
    MirrorItems(name, c, fresh_);
  }

  lemma MirrorOne(c: Change)
    ensures Mirror([c]) == [Dual(c)]
  {
    var t: seq<Change> := [];
    assert [c][1..] == t && Collect(t, DualOf()) == [];
    assert Collect([c], DualOf()) == DualOf()(c) + Collect(t, DualOf());
  }

  lemma MirrorField(name: string, o: Governed, n: Governed, f: RankedField)
    ensures Mirror(FieldChanges(name, o, n)(f)) == FieldChanges(name, n, o)(f)
  {
    var cs := FieldChange(name, f, o.Field(f), n.Field(f));
    if cs != [] { MirrorOne(cs[0]); }
  }

  lemma MirrorFields(name: string, o: Governed, n: Governed)
    ensures Mirror(Collect(RANKED, FieldChanges(name, o, n))) == Collect(RANKED, FieldChanges(name, n, o))
  {
    var f, g := FieldChanges(name, o, n), FieldChanges(name, n, o);
    ThreeFields(f);
    ThreeFields(g);
    CollectAppend(f(MutationClass) + f(ApprovalMode), f(ReplaySafe), DualOf());
    CollectAppend(f(MutationClass), f(ApprovalMode), DualOf());
    MirrorField(name, o, n, MutationClass);
    MirrorField(name, o, n, ApprovalMode);
    MirrorField(name, o, n, ReplaySafe);
  }

  lemma MirrorCollections(name: string, o: Governed, n: Governed)
    ensures multiset(Mirror(Collect(COLLECTIONS, ItemChanges(name, o, n))))
         == multiset(Collect(COLLECTIONS, ItemChanges(name, n, o)))
  {
    var f, g := ItemChanges(name, o, n), ItemChanges(name, n, o);
    TwoCollections(f);
    TwoCollections(g);
    CollectAppend(f(Provenance), f(Dependencies), DualOf());
    MirrorCollection(name, o, n, Provenance);
    MirrorCollection(name, o, n, Dependencies);
  }

  lemma MirrorAction(name: string, o: Governed, n: Governed)
    ensures multiset(Mirror(ActionChanges(name, o, n))) == multiset(ActionChanges(name, n, o))
  {
    CollectAppend(Collect(RANKED, FieldChanges(name, o, n)), Collect(COLLECTIONS, ItemChanges(name, o, n)), DualOf());
    MirrorFields(name, o, n);
    MirrorCollections(name, o, n);
  }

  /** Comparing the other way round reports exactly the duals, whatever the inputs. */
  lemma SwapReverses(b: Views, a: Views)
    ensures multiset(Mirror(Changes(b, a))) == multiset(Changes(a, b))
  {
    var p := Collect(SortedSet(a.Keys - b.Keys), Added(a));
    var q := Collect(SortedSet(b.Keys - a.Keys), Removed(b));
    var r := Collect(SortedSet(b.Keys * a.Keys), Shared(b, a));
    MirrorThree(p, q, r);
    MirrorAdded(SortedSet(a.Keys - b.Keys), a);
    MirrorRemoved(SortedSet(b.Keys - a.Keys), b);
    MirrorShared(b, a);
    ChangesSplit(a, b);
  }

  lemma ChangesSplit(b: Views, a: Views)
    ensures multiset(Changes(b, a))
         == multiset(Collect(SortedSet(b.Keys - a.Keys), Removed(b)))
          + multiset(Collect(SortedSet(a.Keys - b.Keys), Added(a)))
          + multiset(Collect(SortedSet(a.Keys * b.Keys), Shared(b, a)))
  {
    assert b.Keys * a.Keys == a.Keys * b.Keys;
    MultisetThree(Collect(SortedSet(a.Keys - b.Keys), Added(a)), Collect(SortedSet(b.Keys - a.Keys), Removed(b)),
                  Collect(SortedSet(b.Keys * a.Keys), Shared(b, a)));
  }

  lemma MultisetThree(p: seq<Change>, q: seq<Change>, r: seq<Change>)
    ensures multiset(p + q + r) == multiset(q) + multiset(p) + multiset(r)
  {
  }

  lemma MirrorThree(p: seq<Change>, q: seq<Change>, r: seq<Change>)
    ensures multiset(Mirror(p + q + r)) == multiset(Mirror(p)) + multiset(Mirror(q)) + multiset(Mirror(r))
  {
    CollectAppend(p + q, r, DualOf());
    CollectAppend(p, q, DualOf());
  }

  lemma MirrorAdded(names: seq<string>, v: Views)
    ensures multiset(Mirror(Collect(names, Added(v)))) == multiset(Collect(names, Removed(v)))
  {
    forall n ensures Mirror(Added(v)(n)) == Removed(v)(n) { if n in v { MirrorOne(ActionAdded(n, v[n])); } }
    MirrorBlock(names, Added(v), Removed(v));
  }

  lemma MirrorRemoved(names: seq<string>, v: Views)
    ensures multiset(Mirror(Collect(names, Removed(v)))) == multiset(Collect(names, Added(v)))
  {
    forall n ensures Mirror(Removed(v)(n)) == Added(v)(n) { if n in v { MirrorOne(ActionRemoved(n, v[n])); } }
    MirrorBlock(names, Removed(v), Added(v));
  }

  lemma MirrorShared(b: Views, a: Views)
    ensures multiset(Mirror(Collect(SortedSet(b.Keys * a.Keys), Shared(b, a))))
         == multiset(Collect(SortedSet(b.Keys * a.Keys), Shared(a, b)))
  {
    var names := SortedSet(b.Keys * a.Keys);
    forall n | n in names ensures multiset(Mirror(Shared(b, a)(n))) == multiset(Shared(a, b)(n)) {
      MirrorAction(n, b[n], a[n]);
    }
    MirrorBlock(names, Shared(b, a), Shared(a, b));
  }

  // ------------------------------------------------------- where it raises

  function OneAction(name: string, mutation: Ranked): Surface {
    Surface(map[name := Action(mutation, Absent, Absent, NoItems, NoItems)])
  }

  /** A null mutation class that faces a rank: both surfaces are valid, and the comparison raises. */
  lemma NullFacingValue(name: string, rank: nat)
    requires !Blank(name)
    ensures ValidSurface(OneAction(name, Null)) && ValidSurface(OneAction(name, Rank(rank)))
    ensures SomeUnrankable(ViewOf(OneAction(name, Null).actions), ViewOf(OneAction(name, Rank(rank)).actions))
  {
    var (b, a) := (ViewOf(OneAction(name, Null).actions), ViewOf(OneAction(name, Rank(rank)).actions));
    assert name in b && Blocked(b, a, name);
  }

  /** An unhashable mutation class: looking it up raises, whatever it is compared with. */
  lemma UnhashableClass(name: string)
    requires !Blank(name)
    ensures GoodNames(OneAction(name, Unhashable)) && SomeUnhashable(OneAction(name, Unhashable))
  {
    assert name in OneAction(name, Unhashable).actions;
  }
}
