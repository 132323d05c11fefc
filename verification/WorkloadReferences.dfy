/** The reference list of a workload: FindWorkloadReference and SetWorkloadReference of api/apiutil,
    and the map that the list stands for. */
module WorkloadReferences {
  import opened Strings
  import opened Wrappers

  datatype LocalReference = LocalReference(apiGroup: Option<string>, kind: string, name: string)
  datatype TypedReference = TypedReference(apiGroup: Option<string>, kind: string, name: string,
                                           namespace: Option<string>)
  datatype WorkloadReference = WorkloadReference(ref: TypedReference, parent: Option<LocalReference>, urls: seq<string>)

  /** How a reference prints. References are the same when they show the same; the printer belongs to
      a library. */
  type Printer = TypedReference -> string

  // ---------- comparison of URL lists ----------

  /** slices.Compare: the first differing element decides, then the length. */
  function CompareLists(a: seq<string>, b: seq<string>): int {
    if a == [] && b == [] then 0
    else if a == [] then -1
    else if b == [] then 1
    else
      var c := CompareString(a[0], b[0]);
      if c != 0 then c else CompareLists(a[1..], b[1..])
  }

  lemma {:induction false} SameLists(a: seq<string>, b: seq<string>)
    ensures CompareLists(a, b) == 0 <==> a == b
  {
    if a != [] && b != [] {
      SameString(a[0], b[0]);
      SameLists(a[1..], b[1..]);
      assert a == [a[0]] + a[1..] && b == [b[0]] + b[1..];
    }
  }

  // ---------- the list ----------

  function Key(show: Printer, r: WorkloadReference): string {
    show(r.ref)
  }

  ghost predicate DistinctKeys(show: Printer, items: seq<WorkloadReference>) {
    forall i, j :: 0 <= i < j < |items| ==> Key(show, items[i]) != Key(show, items[j])
  }

  /** The first position with the key of `r`, or the length of the list. */
  function Position(show: Printer, items: seq<WorkloadReference>, r: WorkloadReference): nat {
    if items == [] then 0
    else if Key(show, items[0]) == Key(show, r) then 0
    else 1 + Position(show, items[1..], r)
  }

  /** The list after setting `r`: its URLs replaced where its key is first found, and everything else of
      that entry kept; or `r` appended. */
  function Updated(show: Printer, items: seq<WorkloadReference>, r: WorkloadReference): seq<WorkloadReference> {
    var i := Position(show, items, r);
    if i < |items| then items[i := items[i].(urls := r.urls)] else items + [r]
  }

  lemma {:induction false} PositionIsFirst(show: Printer, items: seq<WorkloadReference>, r: WorkloadReference)
    ensures var i := Position(show, items, r);
      && i <= |items|
      && (i < |items| ==> Key(show, items[i]) == Key(show, r))
      && (forall j :: 0 <= j < i ==> Key(show, items[j]) != Key(show, r))
  {
    if items != [] && Key(show, items[0]) != Key(show, r) {
      PositionIsFirst(show, items[1..], r);
    }
  }

  lemma PositionIs(show: Printer, items: seq<WorkloadReference>, r: WorkloadReference, i: nat)
    requires i <= |items|
    requires i < |items| ==> Key(show, items[i]) == Key(show, r)
    requires forall j :: 0 <= j < i ==> Key(show, items[j]) != Key(show, r)
    ensures Position(show, items, r) == i
  {
    PositionIsFirst(show, items, r);
  }

  class ReferenceList {
    var items: seq<WorkloadReference>

    constructor (items: seq<WorkloadReference>)
      ensures this.items == items
    {
      this.items := items;
    }

    /** The index that the returned pointer stands for; None is nil. */
    method Find(show: Printer, r: WorkloadReference) returns (found: Option<nat>)
      ensures found == var i := Position(show, items, r); if i < |items| then Some(i) else None
    {
      for i := 0 to |items|
        invariant forall j :: 0 <= j < i ==> Key(show, items[j]) != Key(show, r)
      {
        if Key(show, items[i]) != Key(show, r) {
          continue;
        }
        PositionIs(show, items, r, i);
        return Some(i);
      }
      PositionIs(show, items, r, |items|);
      found := None;
    }

    method Set(show: Printer, r: WorkloadReference) returns (changed: bool)
      modifies this
      ensures items == Updated(show, old(items), r)
      ensures changed <==> items != old(items)
    {
      var existing := Find(show, r);
      if existing == None {
        items := items + [r];
        return true;
      }
      var i := existing.value;
      SameLists(items[i].urls, r.urls);
      if CompareLists(items[i].urls, r.urls) != 0 {
        items := items[i := items[i].(urls := r.urls)];
        return true;
      }
      assert items[i := items[i].(urls := r.urls)] == items;
      changed := false;
    }

    /** The fold over a sequence of references; `changes` tells what each call returned. */
    method SetAll(show: Printer, rs: seq<WorkloadReference>) returns (changes: seq<bool>)
      modifies this
      ensures items == UpdatedAll(show, old(items), rs)
      ensures |changes| == |rs|
      ensures forall i :: 0 <= i < |rs| ==>
        (changes[i] <==> UpdatedAll(show, old(items), rs[..i + 1]) != UpdatedAll(show, old(items), rs[..i]))
    {
      changes := [];
      for i := 0 to |rs|
        invariant items == UpdatedAll(show, old(items), rs[..i])
        invariant |changes| == i
        invariant forall j :: 0 <= j < i ==>
          (changes[j] <==> UpdatedAll(show, old(items), rs[..j + 1]) != UpdatedAll(show, old(items), rs[..j]))
      {
        var changed := Set(show, rs[i]);
        assert rs[..i + 1][..i] == rs[..i];
        changes := changes + [changed];
      }
      assert rs[..|rs|] == rs;
    }
  }

  function UpdatedAll(show: Printer, items: seq<WorkloadReference>,
                      rs: seq<WorkloadReference>): seq<WorkloadReference> {
    if rs == [] then items
    else Updated(show, UpdatedAll(show, items, rs[..|rs| - 1]), rs[|rs| - 1])
  }

  // ---------- the map it stands for ----------

  /** From keys to URLs; the first entry of a key counts. */
  function Abstract(show: Printer, items: seq<WorkloadReference>): map<string, seq<string>> {
    if items == [] then map[] else Abstract(show, items[1..])[Key(show, items[0]) := items[0].urls]
  }

  lemma UpdatedUnfolds(show: Printer, items: seq<WorkloadReference>, r: WorkloadReference)
    requires items != []
    ensures Updated(show, items, r) ==
      if Key(show, items[0]) == Key(show, r) then [items[0].(urls := r.urls)] + items[1..]
      else [items[0]] + Updated(show, items[1..], r)
  {
    PositionIsFirst(show, items[1..], r);
    assert items == [items[0]] + items[1..];
  }

  lemma {:induction false} AbstractAtPosition(show: Printer, items: seq<WorkloadReference>, r: WorkloadReference)
    ensures var i, m := Position(show, items, r), Abstract(show, items);
      && (Key(show, r) in m <==> i < |items|)
      && (i < |items| ==> m[Key(show, r)] == items[i].urls)
  {
    if items != [] {
      AbstractAtPosition(show, items[1..], r);
    }
  }

  lemma {:induction false} UpdatedWrites(show: Printer, items: seq<WorkloadReference>, r: WorkloadReference)
    ensures Abstract(show, Updated(show, items, r)) == Abstract(show, items)[Key(show, r) := r.urls]
  {
    if items != [] {
      UpdatedUnfolds(show, items, r);
      UpdatedWrites(show, items[1..], r);
    }
  }

  /** One call: the map takes the new URLs under the key and nothing else, the result tells whether the
      map changed, distinct keys stay distinct, and the other entries and the order stay. */
  lemma SetRefinesMap(show: Printer, items: seq<WorkloadReference>, r: WorkloadReference)
    ensures var items', m := Updated(show, items, r), Abstract(show, items);
      && Abstract(show, items') == m[Key(show, r) := r.urls]
      && (items' != items <==> Abstract(show, items') != m)
      && (DistinctKeys(show, items) ==> DistinctKeys(show, items'))
      && |items'| == |items| + (if Key(show, r) in m then 0 else 1)
      && (Key(show, r) !in m ==> items'[|items|] == r)
      && (forall i :: 0 <= i < |items| ==>
            && items'[i].ref == items[i].ref
            && items'[i].parent == items[i].parent
            && (Key(show, items[i]) != Key(show, r) ==> items'[i] == items[i]))
  {
    hide Abstract;
    PositionIsFirst(show, items, r);
    AbstractAtPosition(show, items, r);
    UpdatedWrites(show, items, r);
    var items', i := Updated(show, items, r), Position(show, items, r);
    if i < |items| && items[i].urls == r.urls {
      assert items' == items;
    }
    if DistinctKeys(show, items) {
      UpdatedStaysDistinct(show, items, r);
    }
  }

  lemma UpdatedStaysDistinct(show: Printer, items: seq<WorkloadReference>, r: WorkloadReference)
    requires DistinctKeys(show, items)
    ensures DistinctKeys(show, Updated(show, items, r))
  {
    PositionIsFirst(show, items, r);
  }

  /** The last write to a key wins. */
  function Written(show: Printer, m: map<string, seq<string>>, rs: seq<WorkloadReference>): map<string, seq<string>> {
    if rs == [] then m
    else Written(show, m, rs[..|rs| - 1])[Key(show, rs[|rs| - 1]) := rs[|rs| - 1].urls]
  }

  lemma {:induction false} FoldRefinesMap(show: Printer, items: seq<WorkloadReference>, rs: seq<WorkloadReference>)
    ensures DistinctKeys(show, items) ==> DistinctKeys(show, UpdatedAll(show, items, rs))
    ensures Abstract(show, UpdatedAll(show, items, rs)) == Written(show, Abstract(show, items), rs)
  {
    if rs != [] {
      FoldRefinesMap(show, items, rs[..|rs| - 1]);
      SetRefinesMap(show, UpdatedAll(show, items, rs[..|rs| - 1]), rs[|rs| - 1]);
    }
  }

  lemma RepeatChangesNothing(show: Printer, items: seq<WorkloadReference>, r: WorkloadReference)
    ensures Updated(show, Updated(show, items, r), r) == Updated(show, items, r)
  {
    var i, items' := Position(show, items, r), Updated(show, items, r);
    PositionIsFirst(show, items, r);
    forall j | 0 <= j < i ensures Key(show, items'[j]) != Key(show, r) {
      assert items'[j] == items[j];
    }
    PositionIs(show, items', r, i);
    assert items'[i := items'[i].(urls := r.urls)] == items';
  }
}
