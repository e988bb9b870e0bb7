/**
 The two canonical pre-images the SDK hashes, and the equalities they decide:
 `json.dumps(..., sort_keys=True)` forgets the order of object keys and nothing else;
 `_canonicalize` in front of it also forgets the order of list elements at every depth.
 */
module Canonical {
  import opened Order
  import opened Json

  /** The tree whose plain text is hashed: fields sorted by key and, with `reorder`, lists sorted by text. */
  function Normal(j: Json, reorder: bool): Json
    decreases j, 1
  {
    match j
    case Arr(items) =>
      var ns := NormalItems(items, reorder);
      Arr(if reorder then SortBy(ns, TextKey) else ns)
    case Obj(fields) => Obj(SortBy(NormalFields(fields, reorder), FieldKey))
    case _ => j
  }

  function NormalItems(items: seq<Json>, reorder: bool): (r: seq<Json>)
    ensures |r| == |items|
    decreases items, 0
  {
    if items == [] then [] else [Normal(items[0], reorder)] + NormalItems(items[1..], reorder)
  }

  function NormalFields(fields: seq<Field>, reorder: bool): (r: seq<Field>)
    ensures |r| == |fields|
    decreases fields, 0
  {
    if fields == [] then [] else
    [Field(fields[0].key, Normal(fields[0].value, reorder))] + NormalFields(fields[1..], reorder)
  }

  function TextKey(j: Json): Key { [Print(j)] }

  /** `json.dumps(j, sort_keys=True, separators=(",", ":"), ensure_ascii=False)`. */
  function Encode(j: Json): string { Print(Normal(j, false)) }

  function EncodeKey(j: Json): Key { [Encode(j)] }

  /** `_canonicalize` of the finding bundle: lists sorted by their encoding, dicts kept in order. */
  function Canonicalize(j: Json): Json
    decreases j, 1
  {
    match j
    case Arr(items) => Arr(SortBy(CanonicalizeItems(items), EncodeKey))
    case Obj(fields) => Obj(CanonicalizeFields(fields))
    case _ => j
  }

  function CanonicalizeItems(items: seq<Json>): seq<Json>
    decreases items, 0
  {
    if items == [] then [] else [Canonicalize(items[0])] + CanonicalizeItems(items[1..])
  }

  function CanonicalizeFields(fields: seq<Field>): seq<Field>
    decreases fields, 0
  {
    if fields == [] then [] else
    [Field(fields[0].key, Canonicalize(fields[0].value))] + CanonicalizeFields(fields[1..])
  }

  /** The pre-image of `canonical_digest`. */
  function CanonicalText(j: Json): string { Encode(Canonicalize(j)) }

  // ------------------------------------------------- equality up to reordering

  /** Equal values up to the order of object keys and, with `reorder`, of list elements at every depth. */
  ghost predicate Same(a: Json, b: Json, reorder: bool)
    decreases a, 1
  {
    match (a, b)
    case (Arr(xs), Arr(ys)) => SameItems(xs, ys, reorder)
    case (Obj(fs), Obj(gs)) => SameFields(fs, gs, reorder)
    case _ => a == b
  }

  /** The items can be paired off; without `reorder` only in their own order. */
  ghost predicate SameItems(xs: seq<Json>, ys: seq<Json>, reorder: bool)
    decreases xs, 1
  {
    |xs| == |ys| && (xs == [] || exists j :: 0 <= j < |ys| && (reorder || j == 0) && ItemPairs(xs, ys, j, reorder))
  }

  ghost predicate ItemPairs(xs: seq<Json>, ys: seq<Json>, j: nat, reorder: bool)
    requires xs != [] && j < |ys|
    decreases xs, 0
  {
    Same(xs[0], ys[j], reorder) && SameItems(xs[1..], Without(ys, j), reorder)
  }

  /** The fields can be paired off by key. */
  ghost predicate SameFields(fs: seq<Field>, gs: seq<Field>, reorder: bool)
    decreases fs, 1
  {
    |fs| == |gs| && (fs == [] || exists j :: 0 <= j < |gs| && FieldPairs(fs, gs, j, reorder))
  }

  ghost predicate FieldPairs(fs: seq<Field>, gs: seq<Field>, j: nat, reorder: bool)
    requires fs != [] && j < |gs|
    decreases fs, 0
  {
    fs[0].key == gs[j].key && Same(fs[0].value, gs[j].value, reorder) && SameFields(fs[1..], Without(gs, j), reorder)
  }

  // ---------------------------------------------------------------- the laws

  lemma {:induction false} NormalItemsAt(items: seq<Json>, reorder: bool, i: nat)
    requires i < |items|
    ensures NormalItems(items, reorder)[i] == Normal(items[i], reorder)
  {
    if i > 0 { NormalItemsAt(items[1..], reorder, i - 1); }
  }

  lemma {:induction false} NormalFieldsAt(fields: seq<Field>, reorder: bool, i: nat)
    requires i < |fields|
    ensures NormalFields(fields, reorder)[i] == Field(fields[i].key, Normal(fields[i].value, reorder))
  {
    if i > 0 { NormalFieldsAt(fields[1..], reorder, i - 1); }
  }

  lemma NormalItemsWithout(items: seq<Json>, reorder: bool, j: nat)
    requires j < |items|
    ensures NormalItems(Without(items, j), reorder) == Without(NormalItems(items, reorder), j)
  {
    var w := Without(items, j);
    forall i | 0 <= i < |w| ensures NormalItems(w, reorder)[i] == Without(NormalItems(items, reorder), j)[i] {
      NormalItemsAt(w, reorder, i);
      NormalItemsAt(items, reorder, if i < j then i else i + 1);
    }
  }

  lemma NormalFieldsWithout(fields: seq<Field>, reorder: bool, j: nat)
    requires j < |fields|
    ensures NormalFields(Without(fields, j), reorder) == Without(NormalFields(fields, reorder), j)
  {
    var w := Without(fields, j);
    forall i | 0 <= i < |w| ensures NormalFields(w, reorder)[i] == Without(NormalFields(fields, reorder), j)[i] {
      NormalFieldsAt(w, reorder, i);
      NormalFieldsAt(fields, reorder, if i < j then i else i + 1);
    }
  }

  /** Sorted by text, two lists agree exactly when they hold the same values. */
  lemma SortedByTextIffSameMultiset(a: seq<Json>, b: seq<Json>)
    ensures SortBy(a, TextKey) == SortBy(b, TextKey) <==> multiset(a) == multiset(b)
  {
    SortMultiset(a, TextKey);
    SortMultiset(b, TextKey);
    if multiset(a) == multiset(b) {
      forall x, y | x in a && y in a && TextKey(x) == TextKey(y) ensures x == y {
        assert TextKey(x)[0] == TextKey(y)[0];
        PrintInjective(x, y);
      }
      SortPermutation(a, b, TextKey);
    }
  }

  /** Sorted by key, two dicts agree exactly when they hold the same fields. */
  lemma SortedByKeyIffSameMultiset(a: seq<Field>, b: seq<Field>)
    requires DistinctKeys(a)
    ensures SortBy(a, FieldKey) == SortBy(b, FieldKey) <==> multiset(a) == multiset(b)
  {
    SortMultiset(a, FieldKey);
    SortMultiset(b, FieldKey);
    if multiset(a) == multiset(b) {
      forall x, y | x in a && y in a && FieldKey(x) == FieldKey(y) ensures x == y {
        assert FieldKey(x)[0] == FieldKey(y)[0];
        var i :| 0 <= i < |a| && a[i] == x;
        var j :| 0 <= j < |a| && a[j] == y;
        assert i == j;
      }
      SortPermutation(a, b, FieldKey);
    }
  }

  lemma NormalFieldsDistinct(fields: seq<Field>, reorder: bool)
    requires DistinctKeys(fields)
    ensures DistinctKeys(NormalFields(fields, reorder))
  {
    forall i | 0 <= i < |fields| { NormalFieldsAt(fields, reorder, i); }
  }

  /** Main law: the normal form decides equality up to reordering. */
  lemma {:induction false} NormalDecidesSame(a: Json, b: Json, reorder: bool)
    requires WellFormed(a) && WellFormed(b)
    ensures Same(a, b, reorder) <==> Normal(a, reorder) == Normal(b, reorder)
    decreases a, 1
  {
    match (a, b)
    case (Arr(xs), Arr(ys)) =>
      NormalDecidesSameItems(xs, ys, reorder);
      SortedByTextIffSameMultiset(NormalItems(xs, reorder), NormalItems(ys, reorder));
    case (Obj(fs), Obj(gs)) =>
      NormalDecidesSameFields(fs, gs, reorder);
      NormalFieldsDistinct(fs, reorder);
      SortedByKeyIffSameMultiset(NormalFields(fs, reorder), NormalFields(gs, reorder));
    case _ =>
  }

  /** Equal normal forms of two lists: up to order with `reorder`, elementwise without. */
  ghost predicate NormalItemsAgree(xs: seq<Json>, ys: seq<Json>, reorder: bool) {
    var a, b := NormalItems(xs, reorder), NormalItems(ys, reorder);
    if reorder then multiset(a) == multiset(b) else a == b
  }

  ghost predicate NormalFieldsAgree(fs: seq<Field>, gs: seq<Field>, reorder: bool) {
    multiset(NormalFields(fs, reorder)) == multiset(NormalFields(gs, reorder))
  }

  lemma NormalItemsAgreeSplit(xs: seq<Json>, ys: seq<Json>, reorder: bool)
    requires xs != [] && |xs| == |ys|
    ensures NormalItemsAgree(xs, ys, reorder)
       <==> exists j :: 0 <= j < |ys| && (reorder || j == 0) && Normal(xs[0], reorder) == Normal(ys[j], reorder)
                     && NormalItemsAgree(xs[1..], Without(ys, j), reorder)
  {
    var a, b := NormalItems(xs, reorder), NormalItems(ys, reorder);
    forall j | 0 <= j < |ys|
      ensures b[j] == Normal(ys[j], reorder)
      ensures NormalItems(Without(ys, j), reorder) == Without(b, j)
    {
      NormalItemsAt(ys, reorder, j);
      NormalItemsWithout(ys, reorder, j);
    }
    assert a[0] == Normal(xs[0], reorder) && a[1..] == NormalItems(xs[1..], reorder);
    if reorder {
      MultisetPairOff(a, b);
    } else {
      assert Without(b, 0) == b[1..];
      assert a == [a[0]] + a[1..] && b == [b[0]] + b[1..];
    }
  }

  lemma NormalFieldsAgreeSplit(fs: seq<Field>, gs: seq<Field>, reorder: bool)
    requires fs != [] && |fs| == |gs|
    ensures NormalFieldsAgree(fs, gs, reorder)
       <==> exists j :: 0 <= j < |gs| && fs[0].key == gs[j].key
                     && Normal(fs[0].value, reorder) == Normal(gs[j].value, reorder)
                     && NormalFieldsAgree(fs[1..], Without(gs, j), reorder)
  {
    var a, b := NormalFields(fs, reorder), NormalFields(gs, reorder);
    NormalFieldsEach(gs, reorder);
    assert a[0] == Field(fs[0].key, Normal(fs[0].value, reorder)) && a[1..] == NormalFields(fs[1..], reorder);
    MultisetPairOff(a, b);
    forall j | 0 <= j < |gs|
      ensures b[j] == a[0] && multiset(a[1..]) == multiset(Without(b, j))
         <==> fs[0].key == gs[j].key && Normal(fs[0].value, reorder) == Normal(gs[j].value, reorder)
              && NormalFieldsAgree(fs[1..], Without(gs, j), reorder)
    {
      assert b[j] == Field(gs[j].key, Normal(gs[j].value, reorder));
    }
  }

  lemma NormalFieldsEach(gs: seq<Field>, reorder: bool)
    ensures |NormalFields(gs, reorder)| == |gs|
    ensures forall j | 0 <= j < |gs| :: NormalFields(gs, reorder)[j] == Field(gs[j].key, Normal(gs[j].value, reorder))
    ensures forall j | 0 <= j < |gs| :: NormalFields(Without(gs, j), reorder) == Without(NormalFields(gs, reorder), j)
  {
    forall j | 0 <= j < |gs|
      ensures NormalFields(gs, reorder)[j] == Field(gs[j].key, Normal(gs[j].value, reorder))
      ensures NormalFields(Without(gs, j), reorder) == Without(NormalFields(gs, reorder), j)
    {
      NormalFieldsAt(gs, reorder, j);
      NormalFieldsWithout(gs, reorder, j);
    }
  }

  lemma {:induction false} NormalDecidesSameItems(xs: seq<Json>, ys: seq<Json>, reorder: bool)
    requires WellFormed(Arr(xs)) && WellFormed(Arr(ys))
    ensures SameItems(xs, ys, reorder) <==> NormalItemsAgree(xs, ys, reorder)
    decreases xs, 0
  {
    if NormalItemsAgree(xs, ys, reorder) {
      assert |multiset(NormalItems(xs, reorder))| == |xs| && |multiset(NormalItems(ys, reorder))| == |ys|;
    }
    if xs != [] && |xs| == |ys| {
      NormalItemsAgreeSplit(xs, ys, reorder);
      assert WellFormed(Arr(xs[1..]));
      forall j | 0 <= j < |ys|
        ensures ItemPairs(xs, ys, j, reorder)
           <==> Normal(xs[0], reorder) == Normal(ys[j], reorder) && NormalItemsAgree(xs[1..], Without(ys, j), reorder)
      {
        NormalDecidesSame(xs[0], ys[j], reorder);
        assert WellFormed(Arr(Without(ys, j)));
        NormalDecidesSameItems(xs[1..], Without(ys, j), reorder);
      }
    }
  }

  lemma WellFormedWithout(gs: seq<Field>, j: nat)
    requires WellFormed(Obj(gs)) && j < |gs|
    ensures WellFormed(Obj(Without(gs, j)))
  {
    forall i | 0 <= i < |gs| - 1 ensures Without(gs, j)[i] == gs[if i < j then i else i + 1] {}
  }

  lemma {:induction false} NormalDecidesSameFields(fs: seq<Field>, gs: seq<Field>, reorder: bool)
    requires WellFormed(Obj(fs)) && WellFormed(Obj(gs))
    ensures SameFields(fs, gs, reorder) <==> NormalFieldsAgree(fs, gs, reorder)
    decreases fs, 0
  {
    if NormalFieldsAgree(fs, gs, reorder) {
      assert |multiset(NormalFields(fs, reorder))| == |fs| && |multiset(NormalFields(gs, reorder))| == |gs|;
    }
    if fs != [] && |fs| == |gs| {
      NormalFieldsAgreeSplit(fs, gs, reorder);
      assert WellFormed(Obj(fs[1..]));
      forall j | 0 <= j < |gs|
        ensures FieldPairs(fs, gs, j, reorder)
           <==> fs[0].key == gs[j].key && Normal(fs[0].value, reorder) == Normal(gs[j].value, reorder)
                && NormalFieldsAgree(fs[1..], Without(gs, j), reorder)
      {
        NormalDecidesSame(fs[0].value, gs[j].value, reorder);
        WellFormedWithout(gs, j);
        NormalDecidesSameFields(fs[1..], Without(gs, j), reorder);
      }
    }
  }

  /** `json.dumps(..., sort_keys=True)` is injective up to the order of object keys. */
  lemma EncodeDecidesKeyOrder(a: Json, b: Json)
    requires WellFormed(a) && WellFormed(b)
    ensures Encode(a) == Encode(b) <==> Same(a, b, false)
  {
    NormalDecidesSame(a, b, false);
    if Encode(a) == Encode(b) { PrintInjective(Normal(a, false), Normal(b, false)); }
  }

  // ------------------------------------------- the code's canonicalisation

  lemma {:induction false} InsertNormal(x: Json, s: seq<Json>)
    ensures NormalItems(Insert(x, s, EncodeKey), false) == Insert(Normal(x, false), NormalItems(s, false), TextKey)
  {
    assert EncodeKey(x) == TextKey(Normal(x, false));
    if s != [] {
      assert EncodeKey(s[0]) == TextKey(Normal(s[0], false));
      assert NormalItems(s, false)[1..] == NormalItems(s[1..], false);
      if KeyLe(EncodeKey(x), EncodeKey(s[0])) {
        assert ([x] + s)[1..] == s;
      } else {
        InsertNormal(x, s[1..]);
        var r := Insert(x, s[1..], EncodeKey);
        assert ([s[0]] + r)[1..] == r;
      }
    }
  }

  lemma {:induction false} SortNormal(s: seq<Json>)
    ensures NormalItems(SortBy(s, EncodeKey), false) == SortBy(NormalItems(s, false), TextKey)
  {
    if s != [] {
      SortNormal(s[1..]);
      InsertNormal(s[0], SortBy(s[1..], EncodeKey));
      assert NormalItems(s, false)[1..] == NormalItems(s[1..], false);
    }
  }

  /** Canonicalising and then sorting keys yields the order-free normal form. */
  lemma {:induction false} CanonicalizeNormal(j: Json)
    ensures Normal(Canonicalize(j), false) == Normal(j, true)
    decreases j, 1
  {
    match j
    case Arr(items) =>
      SortNormal(CanonicalizeItems(items));
      CanonicalizeNormalItems(items);
    case Obj(fields) => CanonicalizeNormalFields(fields);
    case _ =>
  }

  lemma {:induction false} CanonicalizeNormalItems(items: seq<Json>)
    ensures NormalItems(CanonicalizeItems(items), false) == NormalItems(items, true)
    decreases items, 0
  {
    if items != [] {
      CanonicalizeNormal(items[0]);
      CanonicalizeNormalItems(items[1..]);
      assert CanonicalizeItems(items)[1..] == CanonicalizeItems(items[1..]);
    }
  }

  lemma {:induction false} CanonicalizeNormalFields(fields: seq<Field>)
    ensures NormalFields(CanonicalizeFields(fields), false) == NormalFields(fields, true)
    decreases fields, 0
  {
    if fields != [] {
      CanonicalizeNormal(fields[0].value);
      CanonicalizeNormalFields(fields[1..]);
      assert CanonicalizeFields(fields)[1..] == CanonicalizeFields(fields[1..]);
    }
  }

  /** The pre-image of `canonical_digest` decides equality up to reordering at every depth. */
  lemma CanonicalTextDecidesReordering(a: Json, b: Json)
    requires WellFormed(a) && WellFormed(b)
    ensures CanonicalText(a) == CanonicalText(b) <==> Same(a, b, true)
  {
    CanonicalizeNormal(a);
    CanonicalizeNormal(b);
    NormalDecidesSame(a, b, true);
    if CanonicalText(a) == CanonicalText(b) { PrintInjective(Normal(a, true), Normal(b, true)); }
  }
}
