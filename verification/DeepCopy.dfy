/** Deep copies of the VaultMap types: what is equal, what is shared, and what happens when a value is copied onto
    itself. */
module DeepCopy {
  import opened Wrappers
  import opened VaultMapTypes

  /** The values behind the pointers; None is a nil slice, which is not an empty one. */
  datatype StatusValue = StatusValue(podsWithSecrets: Option<seq<string>>)

  datatype VaultMapValue = VaultMapValue(typeMeta: TypeMeta, objectMeta: ObjectMeta, spec: MapSpec, status: StatusValue)

  datatype ListValue = ListValue(typeMeta: TypeMeta, listMeta: ListMeta, items: Option<seq<VaultMapValue>>)

  const ZERO_SPEC: MapSpec := MapSpec("", "", "", "", "")
  const ZERO_TYPE_META: TypeMeta := TypeMeta("", "")
  const ZERO_OBJECT_META: ObjectMeta := ObjectMeta("", "", "", None, None, None, None, None, None, None)
  const ZERO_OWNER: OwnerReference := OwnerReference("", "", "", "", None, None)
  const ZERO_MAP: VaultMapValue := VaultMapValue(ZERO_TYPE_META, ZERO_OBJECT_META, ZERO_SPEC, StatusValue(None))

  /** `make([]T, n)` for a zero value of T. */
  function Zeros<T>(n: nat, zero: T): seq<T> {
    seq(n, _ => zero)
  }

  /** What becomes of a slice that is copied onto itself: the new slice is made, and takes the old one's place,
      before the old one is read, so only the length is left. */
  function BlankedSlice<T>(slice: Option<seq<T>>, zero: T): Option<seq<T>> {
    if slice.None? then None else Some(Zeros(|slice.value|, zero))
  }

  /** A map is made empty and then ranged over. */
  function BlankedMap<K, V>(m: Option<map<K, V>>): Option<map<K, V>> {
    if m.None? then None else Some(map[])
  }

  /** A pointer gets a new zero value, which is then copied onto itself. */
  function BlankedPointer<T>(pointer: Option<T>, zero: T): Option<T> {
    if pointer.None? then None else Some(zero)
  }

  function CopiedStatus(status: StatusValue, ontoItself: bool): StatusValue {
    if ontoItself then StatusValue(BlankedSlice(status.podsWithSecrets, "")) else status
  }

  /** The library's `ObjectMeta.DeepCopyInto`, which the same generator wrote in the same pattern. */
  function CopiedMeta(meta: ObjectMeta, ontoItself: bool): ObjectMeta {
    if !ontoItself then meta
    else meta.(
      deletionTimestamp := BlankedPointer(meta.deletionTimestamp, ""),
      deletionGracePeriodSeconds := BlankedPointer(meta.deletionGracePeriodSeconds, 0),
      labels := BlankedMap(meta.labels),
      annotations := BlankedMap(meta.annotations),
      ownerReferences := BlankedSlice(meta.ownerReferences, ZERO_OWNER),
      initializers := BlankedPointer(meta.initializers, ""),
      finalizers := BlankedSlice(meta.finalizers, ""))
  }

  function CopiedMap(vaultMap: VaultMapValue, ontoItself: bool): VaultMapValue {
    vaultMap.(
      objectMeta := CopiedMeta(vaultMap.objectMeta, ontoItself),
      status := CopiedStatus(vaultMap.status, ontoItself))
  }

  class MapStatus {
    var podsWithSecrets: array?<string>

    ghost function Footprint(): set<object>
      reads this
    {
      {this} + if podsWithSecrets == null then {} else {podsWithSecrets}
    }

    ghost function Value(): StatusValue
      reads this, podsWithSecrets
    {
      StatusValue(if podsWithSecrets == null then None else Some(podsWithSecrets[..]))
    }

    constructor ()
      ensures podsWithSecrets == null
    {
      podsWithSecrets := null;
    }

    method DeepCopyInto(out: MapStatus)
      modifies out
      ensures out.Value() == CopiedStatus(old(Value()), out == this)
      ensures out.podsWithSecrets != null ==> fresh(out.podsWithSecrets)
      ensures out.podsWithSecrets == null <==> old(podsWithSecrets) == null
      ensures out != this && out.podsWithSecrets != null ==> out.podsWithSecrets[..] == old(podsWithSecrets[..])
    {
      out.podsWithSecrets := podsWithSecrets;
      if podsWithSecrets != null {
        out.podsWithSecrets := new string[podsWithSecrets.Length](_ => "");
        var source, target := podsWithSecrets, out.podsWithSecrets;
        forall i | 0 <= i < target.Length {
          target[i] := source[i];
        }
        assert out != this ==> target[..] == old(podsWithSecrets[..]);
        assert out == this ==> target[..] == Zeros(target.Length, "");
      }
    }
  }

  /** The status is embedded in the map's own storage. */
  class VaultMap {
    var typeMeta: TypeMeta
    var objectMeta: ObjectMeta
    var spec: MapSpec
    const status: MapStatus

    ghost function Footprint(): set<object>
      reads status
    {
      {this} + status.Footprint()
    }

    ghost function Value(): VaultMapValue
      reads this, status, status.podsWithSecrets
    {
      VaultMapValue(typeMeta, objectMeta, spec, status.Value())
    }

    constructor ()
      ensures Value() == ZERO_MAP && fresh(status)
    {
      typeMeta, objectMeta, spec := ZERO_TYPE_META, ZERO_OBJECT_META, ZERO_SPEC;
      status := new MapStatus();
    }

    /** Distinct maps have distinct storage for their statuses. */
    method DeepCopyInto(out: VaultMap)
      requires out != this ==> out.status != status
      modifies out, out.status
      ensures out.Value() == CopiedMap(old(Value()), out == this)
      ensures out.typeMeta == old(typeMeta) && out.spec == old(spec)
      ensures out != this ==> out.objectMeta == old(objectMeta)
      ensures out.status.podsWithSecrets != null ==> fresh(out.status.podsWithSecrets)
    {
      out.typeMeta, out.objectMeta, out.spec := typeMeta, objectMeta, spec;
      out.status.podsWithSecrets := status.podsWithSecrets;
      out.typeMeta := typeMeta;
      out.objectMeta := CopiedMeta(objectMeta, out == this);
      out.spec := spec;
      status.DeepCopyInto(out.status);
    }
  }

  /** `DeepCopy` of one map: nil for nil, and otherwise an equal map in new storage. */
  method DeepCopyMap(input: VaultMap?) returns (out: VaultMap?)
    ensures input == null <==> out == null
    ensures input != null ==> out.Value() == old(input.Value()) && fresh(out.Footprint())
    ensures input != null ==>
              && fresh(out) && fresh(out.status)
              && (out.status.podsWithSecrets != null ==> fresh(out.status.podsWithSecrets))
              && out.typeMeta == input.typeMeta && out.objectMeta == input.objectMeta && out.spec == input.spec
  {
    if input == null {
      return null;
    }
    out := new VaultMap();
    input.DeepCopyInto(out);
  }

  /** A slice, map or pointer has nothing to lose when it is nil or holds nothing but zero values. */
  predicate NothingInSlice<T(==)>(slice: Option<seq<T>>, zero: T) {
    slice.Some? ==> forall i :: 0 <= i < |slice.value| ==> slice.value[i] == zero
  }

  predicate NothingInMeta(meta: ObjectMeta) {
    && meta.deletionTimestamp in {None, Some("")}
    && meta.deletionGracePeriodSeconds in {None, Some(0)}
    && meta.labels in {None, Some(map[])}
    && meta.annotations in {None, Some(map[])}
    && NothingInSlice(meta.ownerReferences, ZERO_OWNER)
    && meta.initializers in {None, Some("")}
    && NothingInSlice(meta.finalizers, "")
  }

  lemma BlankedSliceKept<T>(slice: Option<seq<T>>, zero: T)
    ensures BlankedSlice(slice, zero) == slice <==> NothingInSlice(slice, zero)
  {
    if slice.Some? {
      var elements := slice.value;
      if forall i :: 0 <= i < |elements| ==> elements[i] == zero {
        assert Zeros(|elements|, zero) == elements;
      } else {
        var i :| 0 <= i < |elements| && elements[i] != zero;
        assert Zeros(|elements|, zero)[i] != elements[i];
      }
    }
  }

  /** Copying a map onto itself keeps it exactly when neither its pod names nor its metadata have anything to lose. */
  lemma SelfCopyKeeps(before: VaultMapValue)
    ensures CopiedMap(before, true) == before
       <==> NothingInSlice(before.status.podsWithSecrets, "") && NothingInMeta(before.objectMeta)
  {
    BlankedSliceKept(before.status.podsWithSecrets, "");
    BlankedSliceKept(before.objectMeta.ownerReferences, ZERO_OWNER);
    BlankedSliceKept(before.objectMeta.finalizers, "");
  }

  /** A concrete loss: one label is enough. */
  lemma SelfCopyExample()
    ensures var before := ZERO_MAP.(objectMeta := ZERO_OBJECT_META.(labels := Some(map["a" := "b"])));
            CopiedMap(before, true) == ZERO_MAP.(objectMeta := ZERO_OBJECT_META.(labels := Some(map[]))) != before
  {
    assert "a" in map["a" := "b"];
  }

  /** `make([]VaultMap, n)`: distinct zero maps in new storage. */
  method MakeMaps(n: nat) returns (maps: array<VaultMap>)
    ensures fresh(maps) && maps.Length == n
    ensures forall i :: 0 <= i < n ==> fresh(maps[i]) && fresh(maps[i].status) && maps[i].Value() == ZERO_MAP
    ensures DistinctSlots(maps[..])
  {
    var first := new VaultMap();
    maps := new VaultMap[n](_ => first);
    for k := 0 to n
      invariant forall i :: 0 <= i < k ==> fresh(maps[i]) && fresh(maps[i].status) && maps[i].Value() == ZERO_MAP
      invariant forall i, j :: 0 <= i < j < k ==> maps[i] != maps[j] && maps[i].status != maps[j].status
    {
      maps[k] := new VaultMap();
    }
  }

  ghost predicate DistinctSlots(maps: seq<VaultMap>) {
    forall i, j :: 0 <= i < j < |maps| ==> maps[i] != maps[j] && maps[i].status != maps[j].status
  }

  ghost predicate SeparateSlots(maps: seq<VaultMap>, others: seq<VaultMap>) {
    forall i, j :: 0 <= i < |maps| && 0 <= j < |others| ==> maps[i] != others[j] && maps[i].status != others[j].status
  }

  /** No two of the maps share storage. */
  ghost predicate Apart(maps: seq<VaultMap>)
    reads set slot | slot in maps :: slot.status
  {
    forall i, j :: 0 <= i < j < |maps| ==>
      && maps[i] != maps[j] && maps[i].status != maps[j].status
      && (maps[i].status.podsWithSecrets != null ==> maps[i].status.podsWithSecrets != maps[j].status.podsWithSecrets)
  }

  lemma ApartMeans(maps: seq<VaultMap>, podSlices: seq<array?<string>>)
    requires DistinctSlots(maps) && |podSlices| == |maps|
    requires forall i :: 0 <= i < |maps| ==> maps[i].status.podsWithSecrets == podSlices[i]
    requires forall i, j :: 0 <= i < j < |maps| && podSlices[i] != null ==> podSlices[i] != podSlices[j]
    ensures Apart(maps)
  {
  }

  /** One round of the loop below. */
  method CopyItem(source: array<VaultMap>, target: array<VaultMap>, i: nat)
    requires i < source.Length == target.Length
    requires DistinctSlots(target[..]) && (source != target ==> SeparateSlots(source[..], target[..]))
    modifies target[i], target[i].status
    ensures target[i].Value() == CopiedMap(old(source[i].Value()), source == target)
    ensures target[i].status.podsWithSecrets != null ==> fresh(target[i].status.podsWithSecrets)
    ensures forall j :: 0 <= j < target.Length && j != i ==>
              && target[j].Value() == old(target[j].Value())
              && target[j].status.podsWithSecrets == old(target[j].status.podsWithSecrets)
    ensures source != target ==> forall j :: 0 <= j < source.Length ==> source[j].Value() == old(source[j].Value())
  {
    assert source != target ==> source[..][i].status != target[..][i].status;
    source[i].DeepCopyInto(target[i]);
  }

  /** The loop of `VaultMapList.DeepCopyInto`; the two slices are one when a list is copied onto itself. */
  method CopyItems(source: array<VaultMap>, target: array<VaultMap>, ghost before: seq<VaultMapValue>)
    requires source.Length == target.Length == |before|
    requires forall i :: 0 <= i < |before| ==> source[i].Value() == before[i]
    requires DistinctSlots(target[..]) && (source != target ==> SeparateSlots(source[..], target[..]))
    modifies (set slot | slot in target[..] :: slot), (set slot | slot in target[..] :: slot.status)
    ensures forall i :: 0 <= i < target.Length ==> target[i].Value() == CopiedMap(before[i], source == target)
    ensures forall i :: 0 <= i < target.Length && target[i].status.podsWithSecrets != null ==>
              fresh(target[i].status.podsWithSecrets)
    ensures Apart(target[..])
  {
    ghost var made: seq<array?<string>> := [];
    for i := 0 to source.Length
      invariant forall j :: 0 <= j < i ==> target[j].Value() == CopiedMap(before[j], source == target)
      invariant forall j :: i <= j < source.Length ==> source[j].Value() == before[j]
      invariant |made| == i && forall j :: 0 <= j < i ==> target[j].status.podsWithSecrets == made[j]
      invariant forall j :: 0 <= j < i && made[j] != null ==> fresh(made[j])
      invariant forall j, k :: 0 <= j < k < i && made[j] != null ==> made[j] != made[k]
    {
      assert target[i] in target[..];
      CopyItem(source, target, i);
      made := made + [target[i].status.podsWithSecrets];
    }
    ApartMeans(target[..], made);
  }

  ghost function Values(maps: seq<VaultMap>): (values: seq<VaultMapValue>)
    reads (set slot | slot in maps :: slot), (set slot | slot in maps :: slot.status)
    reads set slot | slot in maps :: slot.status.podsWithSecrets
    ensures |values| == |maps| && forall i :: 0 <= i < |maps| ==> values[i] == maps[i].Value()
    decreases |maps|
  {
    if maps == [] then []
    else
      assert maps[0] in maps && forall slot :: slot in maps[1..] ==> slot in maps;
      [maps[0].Value()] + Values(maps[1..])
  }

  /** Nothing of the maps' storage existed before. */
  twostate predicate AllNew(new maps: seq<VaultMap>)
    reads set slot | slot in maps :: slot.status
  {
    forall i :: 0 <= i < |maps| ==>
      && fresh(maps[i]) && fresh(maps[i].status)
      && (maps[i].status.podsWithSecrets != null ==> fresh(maps[i].status.podsWithSecrets))
  }

  lemma Snapshot(maps: seq<VaultMap>) returns (values: seq<VaultMapValue>)
    ensures |values| == |maps| && forall i :: 0 <= i < |maps| ==> values[i] == maps[i].Value()
  {
    values := Values(maps);
  }

  twostate lemma ValuesKept(maps: seq<VaultMap>)
    requires forall i :: 0 <= i < |maps| ==> maps[i].Value() == old(maps[i].Value())
    ensures Values(maps) == old(Values(maps))
  {
  }

  class VaultMapList {
    var typeMeta: TypeMeta
    var listMeta: ListMeta
    var items: array?<VaultMap>

    ghost function Maps(): seq<VaultMap>
      reads this, items
    {
      if items == null then [] else items[..]
    }

    /** Every object that an in-place change of the list, its items or their statuses can write to. */
    ghost function Footprint(): set<object>
      reads this, items, (set slot | slot in Maps() :: slot.status)
    {
      {this} + (if items == null then {} else {items}) + (set slot, o | slot in Maps() && o in slot.Footprint() :: o)
    }

    ghost function Value(): ListValue
      reads this, items, Maps(), (set slot | slot in Maps() :: slot.status)
      reads set slot | slot in Maps() :: slot.status.podsWithSecrets
    {
      ListValue(typeMeta, listMeta, if items == null then None else Some(Values(items[..])))
    }

    constructor ()
      ensures items == null
    {
      typeMeta, listMeta, items := ZERO_TYPE_META, ListMeta("", ""), null;
    }

    /** Copied onto itself, a list keeps its length and loses its items. */
    method DeepCopyInto(out: VaultMapList)
      modifies out
      ensures out.typeMeta == old(typeMeta) && out.listMeta == old(listMeta)
      ensures out.items == null <==> old(items) == null
      ensures out.items != null ==>
                && out.items.Length == old(items.Length)
                && forall i :: 0 <= i < out.items.Length ==>
                     out.items[i].Value() == if out == this then ZERO_MAP else old(items[i].Value())
      ensures out.items != null ==> fresh(out.items) && AllNew(out.items[..]) && Apart(out.items[..])
    {
      out.typeMeta, out.listMeta, out.items := typeMeta, listMeta, items;
      out.typeMeta := typeMeta;
      out.listMeta := listMeta;
      if items != null {
        out.items := MakeMaps(items.Length);
        ghost var before := Snapshot(items[..]);
        assert out == this || SeparateSlots(items[..], out.items[..]);
        CopyItems(items, out.items, before);
      }
    }
  }

  lemma ValueIs(list: VaultMapList, value: ListValue)
    requires list.typeMeta == value.typeMeta && list.listMeta == value.listMeta
    requires list.items == null <==> value.items == None
    requires list.items != null ==>
               && list.items.Length == |value.items.value|
               && forall i :: 0 <= i < list.items.Length ==> list.items[i].Value() == value.items.value[i]
    ensures list.Value() == value
  {
    if list.items != null {
      assert Values(list.items[..]) == value.items.value;
    }
  }

  twostate lemma FootprintIsNew(new list: VaultMapList)
    requires fresh(list) && (list.items != null ==> fresh(list.items) && AllNew(list.items[..]))
    ensures fresh(list.Footprint())
  {
  }

  /** `DeepCopy`: nil for nil, and otherwise a new list, equal at every depth, that shares no storage with the old
      one. */
  method DeepCopyList(input: VaultMapList?) returns (out: VaultMapList?)
    ensures input == null <==> out == null
    ensures input != null ==> out.Value() == old(input.Value())
    ensures input != null ==> fresh(out.Footprint()) && Apart(out.Maps())
    ensures input != null ==> fresh(out) && (out.items != null ==> fresh(out.items) && AllNew(out.items[..]))
  {
    if input == null {
      return null;
    }
    ghost var before := input.Value();
    out := new VaultMapList();
    input.DeepCopyInto(out);
    ValueIs(out, before);
    FootprintIsNew(out);
  }

  /** New storage is nobody else's. */
  twostate lemma NewIsApart(older: set<object>, new newer: set<object>)
    requires fresh(newer)
    ensures older !! newer
  {
  }

  /** Any in-place change at all: the contract permits writing every object of the list. */
  method AnyChange(list: VaultMapList)
    modifies list.Footprint()
  {
  }

  /** Whatever is written in one list does not show in another that shares no storage with it. */
  method ChangeApart(list: VaultMapList, other: VaultMapList)
    requires list.Footprint() !! other.Footprint()
    modifies list.Footprint()
    ensures other.Value() == old(other.Value())
  {
    ghost var slots := other.Maps();
    assert forall i :: 0 <= i < |slots| ==> slots[i].Footprint() <= other.Footprint();
    AnyChange(list);
    assert other.Maps() == slots;
    forall i | 0 <= i < |slots|
      ensures slots[i].Value() == old(slots[i].Value())
    {
    }
    ValuesKept(slots);
  }

  /** Writing all over the copy leaves the original as it was ... */
  method ChangeTheCopy(list: VaultMapList) returns (copy: VaultMapList)
    ensures list.Value() == old(list.Value())
  {
    ghost var mine := list.Footprint();
    copy := DeepCopyList(list);
    NewIsApart(mine, copy.Footprint());
    ValuesKept(list.Maps());
    ChangeApart(copy, list);
  }

  /** ... and writing all over the original leaves the copy what the original was. */
  method ChangeTheOriginal(list: VaultMapList) returns (copy: VaultMapList)
    modifies list.Footprint()
    ensures copy.Value() == old(list.Value())
  {
    ghost var mine := list.Footprint();
    copy := DeepCopyList(list);
    NewIsApart(mine, copy.Footprint());
    ChangeApart(list, copy);
  }

  /** Any in-place change of one map. */
  method AnyMapChange(vaultMap: VaultMap)
    modifies vaultMap.Footprint()
  {
  }

  method ChangeSlot(slots: seq<VaultMap>, chosen: nat)
    requires Apart(slots) && chosen < |slots|
    modifies slots[chosen].Footprint()
    ensures forall i :: 0 <= i < |slots| && i != chosen ==> slots[i].Value() == old(slots[i].Value())
  {
    AnyMapChange(slots[chosen]);
  }

  /** Whatever is written in one item of the copy, the other items stay what the originals were, even when those shared
      one slice of pod names or were one map. */
  method ChangeOneItem(list: VaultMapList, chosen: nat) returns (copy: VaultMapList)
    requires list.items != null && chosen < list.items.Length
    ensures copy.items != null && copy.items.Length == list.items.Length
    ensures forall i :: 0 <= i < list.items.Length && i != chosen ==>
              copy.items[i].Value() == old(list.items[i].Value())
  {
    copy := new VaultMapList();
    list.DeepCopyInto(copy);
    ChangeSlot(copy.items[..], chosen);
  }
}
