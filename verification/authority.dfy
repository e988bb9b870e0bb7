/** The authority-surface diff of `l9_ci/governance/authority.py`. */
module Authority {
  import opened Order
  import opened Text
  import opened Wrappers

  /** A ranked field of an action: the rank stands for the recognised value; a list or a mapping cannot be looked up. */
  datatype Ranked = Absent | Null | Rank(rank: nat) | Unrecognized | Unhashable

  /** A required-items field: absent or null, a list (an item that is no string is `None`), or something else. */
  datatype Items = NoItems | ItemList(items: seq<Option<string>>) | NotAList

  datatype RankedField = MutationClass | ApprovalMode | ReplaySafe

  datatype Collection = Provenance | Dependencies

  const RANKED: seq<RankedField> := [MutationClass, ApprovalMode, ReplaySafe]

  const COLLECTIONS: seq<Collection> := [Provenance, Dependencies]

  datatype Action =
    | NotMapping
    | Action(mutation: Ranked, approval: Ranked, replay: Ranked, provenance: Items, dependencies: Items)
  {
    /** The governed fields; `validated[name] or {}` for what is no mapping. */
    function View(): Governed {
      match this
      case NotMapping => Governed(Absent, Absent, Absent, {}, {})
      case Action(m, a, r, p, d) => Governed(m, a, r, ItemSet(p), ItemSet(d))
    }
  }

  /** The strings of a list, nothing for an absent one. */
  function ItemSet(i: Items): set<string> {
    match i
    case ItemList(items) => set k | 0 <= k < |items| && items[k].Some? :: items[k].value
    case _ => {}
  }

  /** What the comparison governs of one action. */
  datatype Governed = Governed(mutation: Ranked, approval: Ranked, replay: Ranked, provenance: set<string>,
                               dependencies: set<string>)
  {
    function Field(f: RankedField): Ranked {
      match f
      case MutationClass => mutation
      case ApprovalMode => approval
      case ReplaySafe => replay
    }

    function With(f: RankedField, v: Ranked): Governed {
      match f
      case MutationClass => this.(mutation := v)
      case ApprovalMode => this.(approval := v)
      case ReplaySafe => this.(replay := v)
    }

    function Set(c: Collection): set<string> {
      match c
      case Provenance => provenance
      case Dependencies => dependencies
    }

    function WithSet(c: Collection, v: set<string>): Governed {
      match c
      case Provenance => this.(provenance := v)
      case Dependencies => this.(dependencies := v)
    }
  }

  /** An authority document: its actions by name. */
  datatype Surface = NotADocument | ActionsNotMapping | Surface(actions: map<string, Action>)

  type Views = map<string, Governed>

  function ViewOf(actions: map<string, Action>): Views { map n | n in actions :: actions[n].View() }

  // -------------------------------------------------------------- validity

  predicate GoodRanked(r: Ranked) { r.Absent? || r.Null? || r.Rank? }

  predicate GoodItems(i: Items) {
    match i
    case NoItems => true
    case NotAList => false
    case ItemList(items) =>
      && (forall k | 0 <= k < |items| :: items[k].Some? && !Blank(items[k].value))
      && forall j, k | 0 <= j < k < |items| :: items[j] != items[k]
  }

  predicate GoodAction(a: Action) {
    && a.Action? && GoodRanked(a.mutation) && GoodRanked(a.approval) && GoodRanked(a.replay)
    && GoodItems(a.provenance) && GoodItems(a.dependencies)
  }

  predicate ValidSurface(s: Surface) {
    s.Surface? && forall n | n in s.actions :: !Blank(n) && GoodAction(s.actions[n])
  }

  predicate GoodNames(s: Surface) { s.Surface? && forall n | n in s.actions :: !Blank(n) }

  /** Looking up an unhashable value in a rank table raises. */
  predicate SomeUnhashable(s: Surface) {
    s.Surface? && exists n | n in s.actions :: s.actions[n].Action? && HasUnhashable(s.actions[n].View())
  }

  predicate HasUnhashable(g: Governed) {
    g.mutation == Unhashable || g.approval == Unhashable || g.replay == Unhashable
  }

  /** Every ranked field is absent, null or a recognised value. */
  predicate Recognised(g: Governed) { GoodRanked(g.mutation) && GoodRanked(g.approval) && GoodRanked(g.replay) }

  predicate AllRecognised(v: Views) { forall n | n in v :: Recognised(v[n]) }

  lemma ValidIsRecognised(s: Surface)
    requires ValidSurface(s)
    ensures AllRecognised(ViewOf(s.actions)) && GoodNames(s) && !SomeUnhashable(s)
  {
  }

  // --------------------------------------------------------------- changes

  datatype Change =
    | ActionAdded(name: string, view: Governed)
    | ActionRemoved(name: string, view: Governed)
    | FieldAdded(name: string, field: RankedField, after: Ranked)
    | FieldRemoved(name: string, field: RankedField, before: Ranked)
    | Moved(name: string, field: RankedField, up: bool, before: Ranked, after: Ranked)
    | ItemRemoved(name: string, collection: Collection, item: string)
    | ItemAdded(name: string, collection: Collection, item: string)

  /** The `authority.*` codes of changes. */
  datatype Code =
    | ActionAddedCode | ActionRemovedCode | FieldAddedCode | FieldRemovedCode
    | MutationEscalated | MutationReduced | ApprovalWeakened | ApprovalStrengthened | ReplayReduced | ReplayIncreased
    | ProvenanceRemoved | ProvenanceAdded | DependencyRemoved | DependencyAdded

  function CodeOf(c: Change): Code {
    match c
    case ActionAdded(_, _) => ActionAddedCode
    case ActionRemoved(_, _) => ActionRemovedCode
    case FieldAdded(_, _, _) => FieldAddedCode
    case FieldRemoved(_, _, _) => FieldRemovedCode
    case Moved(_, MutationClass, up, _, _) => if up then MutationEscalated else MutationReduced
    case Moved(_, ApprovalMode, up, _, _) => if up then ApprovalWeakened else ApprovalStrengthened
    case Moved(_, ReplaySafe, up, _, _) => if up then ReplayIncreased else ReplayReduced
    case ItemRemoved(_, c, _) => if c == Provenance then ProvenanceRemoved else DependencyRemoved
    case ItemAdded(_, c, _) => if c == Provenance then ProvenanceAdded else DependencyAdded
  }

  /** Ranking a null against a value has no entry in the rank table. */
  predicate Unrankable(old_: Ranked, new_: Ranked) {
    old_ != Absent && new_ != Absent && old_ != new_ && (old_ == Null || new_ == Null)
  }

  function FieldChange(name: string, f: RankedField, old_: Ranked, new_: Ranked): seq<Change> {
    if old_ == Absent && new_ != Absent then [FieldAdded(name, f, new_)]
    else if old_ != Absent && new_ == Absent then [FieldRemoved(name, f, old_)]
    else if old_.Rank? && new_.Rank? && old_ != new_ then [Moved(name, f, new_.rank > old_.rank, old_, new_)]
    else []
  }

  function FieldChanges(name: string, o: Governed, n: Governed): RankedField -> seq<Change> {
    f => FieldChange(name, f, o.Field(f), n.Field(f))
  }

  function Removals(name: string, c: Collection): string -> seq<Change> { item => [ItemRemoved(name, c, item)] }

  function Additions(name: string, c: Collection): string -> seq<Change> { item => [ItemAdded(name, c, item)] }

  function ItemChanges(name: string, o: Governed, n: Governed): Collection -> seq<Change> {
    c =>
      Collect(SortedSet(o.Set(c) - n.Set(c)), Removals(name, c))
      + Collect(SortedSet(n.Set(c) - o.Set(c)), Additions(name, c))
  }

  function ActionChanges(name: string, o: Governed, n: Governed): seq<Change> {
    Collect(RANKED, FieldChanges(name, o, n)) + Collect(COLLECTIONS, ItemChanges(name, o, n))
  }

  function Shared(b: Views, a: Views): string -> seq<Change> {
    name => if name in b && name in a then ActionChanges(name, b[name], a[name]) else []
  }

  function Added(a: Views): string -> seq<Change> { name => if name in a then [ActionAdded(name, a[name])] else [] }

  function Removed(b: Views): string -> seq<Change> { name => if name in b then [ActionRemoved(name, b[name])] else [] }

  /** The changes in the order the comparison reports them. */
  function Changes(b: Views, a: Views): seq<Change> {
    Collect(SortedSet(a.Keys - b.Keys), Added(a)) + Collect(SortedSet(b.Keys - a.Keys), Removed(b))
    + Collect(SortedSet(b.Keys * a.Keys), Shared(b, a))
  }

  predicate ActionUnrankable(o: Governed, n: Governed) {
    Unrankable(o.mutation, n.mutation) || Unrankable(o.approval, n.approval) || Unrankable(o.replay, n.replay)
  }

  /** Some shared action has a ranked field that is null on exactly one side and present on the other. */
  predicate SomeUnrankable(b: Views, a: Views) { exists n | n in b :: Blocked(b, a, n) }

  predicate Ready(b: Views, a: Views, name: string) {
    name in b && name in a && Recognised(b[name]) && Recognised(a[name])
  }

  predicate Blocked(b: Views, a: Views, name: string) { name in b && name in a && ActionUnrankable(b[name], a[name]) }

  datatype Result = Invalid | Pass(changes: seq<Change>, changed: bool, count: nat)

  // -------------------------------------------------------------- algorithm

  method CompareField(name: string, f: RankedField, o: Governed, n: Governed) returns (r: Outcome<seq<Change>>)
    requires GoodRanked(o.Field(f)) && GoodRanked(n.Field(f))
    ensures r == if Unrankable(o.Field(f), n.Field(f)) then Raised else Returned(FieldChanges(name, o, n)(f))
  {
    var old_, new_ := o.Field(f), n.Field(f);
    if (old_ != Absent) != (new_ != Absent) {
      return Returned([if new_ != Absent then FieldAdded(name, f, new_) else FieldRemoved(name, f, old_)]);
    }
    if old_ == Absent || old_ == new_ { return Returned([]); }
    if old_ == Null || new_ == Null { return Raised; }
    r := Returned([Moved(name, f, new_.rank > old_.rank, old_, new_)]);
  }

  lemma FieldOf(g: Governed, f: RankedField)
    requires Recognised(g)
    ensures GoodRanked(g.Field(f))
  {
  }

  lemma RankableIffFields(o: Governed, n: Governed)
    ensures ActionUnrankable(o, n)
       <==> exists k :: 0 <= k < |RANKED| && Unrankable(o.Field(RANKED[k]), n.Field(RANKED[k]))
  {
    assert RANKED[0] == MutationClass && RANKED[1] == ApprovalMode && RANKED[2] == ReplaySafe;
    assert Unrankable(o.mutation, n.mutation) ==> Unrankable(o.Field(RANKED[0]), n.Field(RANKED[0]));
    assert Unrankable(o.approval, n.approval) ==> Unrankable(o.Field(RANKED[1]), n.Field(RANKED[1]));
    assert Unrankable(o.replay, n.replay) ==> Unrankable(o.Field(RANKED[2]), n.Field(RANKED[2]));
  }

  /** The loop over the ranked fields of one shared action. */
  method CompareFields(fields: seq<RankedField>, name: string, o: Governed, n: Governed)
    returns (r: Outcome<seq<Change>>)
    requires Recognised(o) && Recognised(n)
    ensures r.Raised? <==> exists k :: 0 <= k < |fields| && Unrankable(o.Field(fields[k]), n.Field(fields[k]))
    ensures r.Returned? ==> r.value == Collect(fields, FieldChanges(name, o, n))
  {
    var changes := [];
    for i := 0 to |fields|
      invariant changes == Collect(fields[..i], FieldChanges(name, o, n))
      invariant forall k :: 0 <= k < i ==> !Unrankable(o.Field(fields[k]), n.Field(fields[k]))
    {
      CollectStep(fields, i, FieldChanges(name, o, n));
      FieldOf(o, fields[i]);
      FieldOf(n, fields[i]);
      var one := CompareField(name, fields[i], o, n);
      if one.Raised? { return Raised; }
      changes := changes + one.value;
    }
    assert fields[..|fields|] == fields;
    r := Returned(changes);
  }

  /** The loop over the two collections of one shared action. */
  method CompareCollections(collections: seq<Collection>, name: string, o: Governed, n: Governed)
    returns (changes: seq<Change>)
    ensures changes == Collect(collections, ItemChanges(name, o, n))
  {
    changes := [];
    for i := 0 to |collections|
      invariant changes == Collect(collections[..i], ItemChanges(name, o, n))
    {
      CollectStep(collections, i, ItemChanges(name, o, n));
      var items := CompareItems(collections[i], name, o, n);
      changes := changes + items;
    }
    assert collections[..|collections|] == collections;
  }

  method CompareItems(c: Collection, name: string, o: Governed, n: Governed) returns (changes: seq<Change>)
    ensures changes == ItemChanges(name, o, n)(c)
  {
    var removed := CollectEach(SortedSet(o.Set(c) - n.Set(c)), Removals(name, c));
    var added := CollectEach(SortedSet(n.Set(c) - o.Set(c)), Additions(name, c));
    changes := removed + added;
  }

  method CompareAction(name: string, o: Governed, n: Governed) returns (r: Outcome<seq<Change>>)
    requires Recognised(o) && Recognised(n)
    ensures r == if ActionUnrankable(o, n) then Raised else Returned(ActionChanges(name, o, n))
  {
    RankableIffFields(o, n);
    var fields := CompareFields(RANKED, name, o, n);
    if fields.Raised? { return Raised; }
    var items := CompareCollections(COLLECTIONS, name, o, n);
    r := Returned(fields.value + items);
  }

  /** The loop over the shared actions. */
  method CompareShared(names: seq<string>, b: Views, a: Views) returns (r: Outcome<seq<Change>>)
    requires forall n :: n in names ==> Ready(b, a, n)
    ensures r.Raised? ==> exists n :: n in names && Blocked(b, a, n)
    ensures r.Returned? ==> forall n :: n in names ==> !Blocked(b, a, n)
    ensures r.Returned? ==> r.value == Collect(names, Shared(b, a))
  {
    var changes := [];
    for i := 0 to |names|
      invariant changes == Collect(names[..i], Shared(b, a))
      invariant forall n :: n in names[..i] ==> !Blocked(b, a, n)
    {
      CollectStep(names, i, Shared(b, a));
      var one := CompareOne(names[i], b, a);
      if one.Raised? { return Raised; }
      changes := changes + one.value;
    }
    assert names[..|names|] == names;
    r := Returned(changes);
  }

  method CompareOne(name: string, b: Views, a: Views) returns (r: Outcome<seq<Change>>)
    requires Ready(b, a, name)
    ensures r == if Blocked(b, a, name) then Raised else Returned(Shared(b, a)(name))
  {
    r := CompareAction(name, b[name], a[name]);
  }

  /**
   The whole comparison. It raises exactly when a ranked value cannot be looked up: an unhashable value, or a null
   that faces a value; it is invalid exactly on malformed input; otherwise it reports the changes.
   */
  method CompareAuthority(before: Surface, after: Surface) returns (r: Outcome<Result>)
    ensures r.Raised? <==>
            && GoodNames(before) && GoodNames(after)
            && (SomeUnhashable(before) || SomeUnhashable(after)
                || (ValidSurface(before) && ValidSurface(after)
                    && SomeUnrankable(ViewOf(before.actions), ViewOf(after.actions))))
    ensures r.Returned? ==> (r.value.Invalid? <==> !(ValidSurface(before) && ValidSurface(after)))
    ensures r.Returned? && r.value.Pass? ==>
              r.value.changes == Changes(ViewOf(before.actions), ViewOf(after.actions))
              && r.value.changed == (r.value.changes != []) && r.value.count == |r.value.changes|
  {
    if ValidSurface(before) { ValidIsRecognised(before); }
    if ValidSurface(after) { ValidIsRecognised(after); }
    if !GoodNames(before) || !GoodNames(after) { return Returned(Invalid); }
    if SomeUnhashable(before) || SomeUnhashable(after) { return Raised; }
    if !ValidSurface(before) || !ValidSurface(after) { return Returned(Invalid); }
    var b, a := ViewOf(before.actions), ViewOf(after.actions);
    var added := CollectEach(SortedSet(a.Keys - b.Keys), Added(a));
    var removed := CollectEach(SortedSet(b.Keys - a.Keys), Removed(b));
    var names := SortedSet(b.Keys * a.Keys);
    assert forall n :: n in names <==> n in b && n in a;
    var shared := CompareShared(names, b, a);
    if shared.Raised? { return Raised; }
    var changes := added + removed + shared.value;
    r := Returned(Pass(changes, changes != [], |changes|));
  }
}
