/** The table of known Escher (Office Drawing) properties: property id to
    name and value type. It is built once by a run of `addProp` calls, each
    a `put` into a hash map keyed by the id cast to `short`, so a later
    registration of the same id replaces an earlier one. */
module EscherProperties {
  import opened LittleEndian

  /** The value types of `EscherPropertyMetaData`. */
  const TYPE_UNKNOWN: int := 0
  const TYPE_BOOLEAN: int := 1
  const TYPE_RGB: int := 2
  const TYPE_SHAPEPATH: int := 3
  const TYPE_SIMPLE: int := 4
  const TYPE_ARRAY: int := 5

  /** What the table stores for one id. */
  datatype MetaData = MetaData(description: string, typ: int)

  /** One `addProp(m, id, name[, type])` call; the two-argument form
      registers the unknown type. */
  datatype Registration = Registration(id: int, name: string, typ: int)

  /** The key an id is stored under: the `int` constant cast to `short`. */
  function Key(r: Registration): int {
    ToShort(r.id)
  }

  function Meta(r: Registration): MetaData {
    MetaData(r.name, r.typ)
  }

  const TRANSFORM__ROTATION: int := 4
  const PROTECTION__LOCKROTATION: int := 119
  const PROTECTION__LOCKAGAINSTGROUPING: int := 127
  const GEOMETRY__SHAPEPATH: int := 324
  const GEOMETRY__FILLOK: int := 383
  const FILL__FILLCOLOR: int := 385
  const FILL__FILLBACKCOLOR: int := 387
  const GROUPSHAPE__FLAGS: int := 0x03BF
  const GROUPSHAPE__PRINT: int := 959

  /** The registrations in the order `initProps` makes them: its first
      calls, the geometry and fill calls around the RGB-typed fill colours,
      and the group-shape calls at its end, where 0x03BF is registered
      twice, first as GROUPSHAPE__FLAGS and last as GROUPSHAPE__PRINT. */
  const REGISTRATIONS: seq<Registration> := [
    Registration(TRANSFORM__ROTATION, "transform.rotation", TYPE_UNKNOWN),
    Registration(PROTECTION__LOCKROTATION, "protection.lockrotation", TYPE_UNKNOWN),
    Registration(120, "protection.lockaspectratio", TYPE_UNKNOWN),
    Registration(121, "protection.lockposition", TYPE_UNKNOWN),
    Registration(122, "protection.lockagainstselect", TYPE_UNKNOWN),
    Registration(123, "protection.lockcropping", TYPE_UNKNOWN),
    Registration(124, "protection.lockvertices", TYPE_UNKNOWN),
    Registration(125, "protection.locktext", TYPE_UNKNOWN),
    Registration(126, "protection.lockadjusthandles", TYPE_UNKNOWN),
    Registration(PROTECTION__LOCKAGAINSTGROUPING, "protection.lockagainstgrouping", TYPE_BOOLEAN),
    Registration(320, "geometry.left", TYPE_UNKNOWN),
    Registration(321, "geometry.top", TYPE_UNKNOWN),
    Registration(322, "geometry.right", TYPE_UNKNOWN),
    Registration(323, "geometry.bottom", TYPE_UNKNOWN),
    Registration(GEOMETRY__SHAPEPATH, "geometry.shapepath", TYPE_SHAPEPATH),
    Registration(325, "geometry.vertices", TYPE_ARRAY),
    Registration(326, "geometry.segmentinfo", TYPE_ARRAY),
    Registration(327, "geometry.adjustvalue", TYPE_UNKNOWN),
    Registration(GEOMETRY__FILLOK, "geometry.fillok", TYPE_BOOLEAN),
    Registration(384, "fill.filltype", TYPE_UNKNOWN),
    Registration(FILL__FILLCOLOR, "fill.fillcolor", TYPE_RGB),
    Registration(386, "fill.fillopacity", TYPE_UNKNOWN),
    Registration(FILL__FILLBACKCOLOR, "fill.fillbackcolor", TYPE_RGB),
    Registration(388, "fill.backopacity", TYPE_UNKNOWN),
    Registration(0x039E, "groupshape.borderRightColor", TYPE_UNKNOWN),
    Registration(0x039F, "groupshape.tableProperties", TYPE_UNKNOWN),
    Registration(0x03A0, "groupshape.tableRowProperties", TYPE_UNKNOWN),
    Registration(0x03A5, "groupshape.wzWebBot", TYPE_UNKNOWN),
    Registration(0x03A9, "groupshape.metroBlob", TYPE_UNKNOWN),
    Registration(0x03AA, "groupshape.dhgt", TYPE_UNKNOWN),
    Registration(GROUPSHAPE__FLAGS, "groupshape.GroupShapeBooleanProperties", TYPE_UNKNOWN),
    Registration(953, "groupshape.editedwrap", TYPE_UNKNOWN),
    Registration(954, "groupshape.behinddocument", TYPE_UNKNOWN),
    Registration(955, "groupshape.ondblclicknotify", TYPE_UNKNOWN),
    Registration(956, "groupshape.isbutton", TYPE_UNKNOWN),
    Registration(957, "groupshape.1dadjustment", TYPE_UNKNOWN),
    Registration(958, "groupshape.hidden", TYPE_UNKNOWN),
    Registration(GROUPSHAPE__PRINT, "groupshape.print", TYPE_BOOLEAN)
  ]

  /** The map a run of registrations leaves behind: each one a `put`. */
  function TableOf(regs: seq<Registration>): map<int, MetaData>
  {
    if regs == [] then map[]
    else TableOf(regs[..|regs| - 1])[Key(regs[|regs| - 1]) := Meta(regs[|regs| - 1])]
  }

  /** `regs[i]` is the last registration stored under key `k`. */
  ghost predicate IsLastFor(regs: seq<Registration>, k: int, i: int) {
    0 <= i < |regs| && Key(regs[i]) == k && forall j :: i < j < |regs| ==> Key(regs[j]) != k
  }

  /** A key is missing from the table exactly when no registration used it. */
  lemma {:induction false} TableOfDomain(regs: seq<Registration>, k: int)
    ensures k !in TableOf(regs) <==> forall i :: 0 <= i < |regs| ==> Key(regs[i]) != k
  {
    if regs != [] {
      var n := |regs| - 1;
      TableOfDomain(regs[..n], k);
      assert forall i :: 0 <= i < n ==> regs[..n][i] == regs[i];
    }
  }

  /** A registered key holds what its last registration stored. */
  lemma {:induction false} TableOfLast(regs: seq<Registration>, k: int, i: int)
    requires IsLastFor(regs, k, i)
    ensures k in TableOf(regs) && TableOf(regs)[k] == Meta(regs[i])
  {
    var n := |regs| - 1;
    if i < n {
      var init := regs[..n];
      assert forall j :: 0 <= j < n ==> init[j] == regs[j];
      assert IsLastFor(init, k, i);
      TableOfLast(init, k, i);
    }
  }

  /** The `HashMap` that `initProps` fills. */
  class PropertyMap {
    var entries: map<int, MetaData>

    constructor ()
      ensures entries == map[]
    {
      entries := map[];
    }

    /** `addProp`: stores the entry under the id cast to `short`, replacing
        any entry already stored there. */
    method AddProp(id: int, name: string, typ: int)
      modifies this
      ensures entries == old(entries)[ToShort(id) := MetaData(name, typ)]
    {
      entries := entries[ToShort(id) := MetaData(name, typ)];
    }
  }

  /** `initProps`: one `addProp` per registration, in order. */
  method InitProps(regs: seq<Registration>) returns (m: PropertyMap)
    ensures fresh(m)
    ensures m.entries == TableOf(regs)
  {
    m := new PropertyMap();
    for i := 0 to |regs|
      invariant m.entries == TableOf(regs[..i])
    {
      assert regs[..i + 1][..i] == regs[..i];
      m.AddProp(regs[i].id, regs[i].name, regs[i].typ);
    }
    assert regs[..|regs|] == regs;
  }

  /** The static table, built once; the lookups only read it. */
  const PROPERTIES: map<int, MetaData> := TableOf(REGISTRATIONS)

  /** `getPropertyName`: the name last registered for the id, or "unknown". */
  function GetPropertyName(propertyId: int): (r: string)
    requires IsShort(propertyId)
    ensures (forall i :: 0 <= i < |REGISTRATIONS| ==> Key(REGISTRATIONS[i]) != propertyId) ==> r == "unknown"
    ensures forall i :: IsLastFor(REGISTRATIONS, propertyId, i) ==> r == REGISTRATIONS[i].name
  {
    TableOfDomain(REGISTRATIONS, propertyId);
    forall i | IsLastFor(REGISTRATIONS, propertyId, i) {
      TableOfLast(REGISTRATIONS, propertyId, i);
    }
    if propertyId in PROPERTIES then PROPERTIES[propertyId].description else "unknown"
  }

  /** `getPropertyType`: the type last registered for the id, or 0. */
  function GetPropertyType(propertyId: int): (r: int)
    requires IsShort(propertyId)
    ensures (forall i :: 0 <= i < |REGISTRATIONS| ==> Key(REGISTRATIONS[i]) != propertyId) ==> r == 0
    ensures forall i :: IsLastFor(REGISTRATIONS, propertyId, i) ==> r == REGISTRATIONS[i].typ
  {
    TableOfDomain(REGISTRATIONS, propertyId);
    forall i | IsLastFor(REGISTRATIONS, propertyId, i) {
      TableOfLast(REGISTRATIONS, propertyId, i);
    }
    if propertyId in PROPERTIES then PROPERTIES[propertyId].typ else 0
  }

  /** FILL__FILLCOLOR is registered with the RGB type. */
  lemma FillColorIsRgb()
    ensures GetPropertyName(FILL__FILLCOLOR) == "fill.fillcolor"
    ensures GetPropertyType(FILL__FILLCOLOR) == TYPE_RGB
  {
    assert IsLastFor(REGISTRATIONS, FILL__FILLCOLOR, 20);
  }

  /** 0x03BF is registered twice; the second `put` (GROUPSHAPE__PRINT)
      replaces the first (GROUPSHAPE__FLAGS). */
  lemma GroupShapeFlagsReplaced()
    ensures GROUPSHAPE__FLAGS == GROUPSHAPE__PRINT
    ensures GetPropertyName(GROUPSHAPE__FLAGS) == "groupshape.print"
    ensures GetPropertyType(GROUPSHAPE__FLAGS) == TYPE_BOOLEAN
  {
    assert IsLastFor(REGISTRATIONS, GROUPSHAPE__PRINT, |REGISTRATIONS| - 1);
  }

  /** An id that nothing registers reads as "unknown" with type 0. */
  lemma UnregisteredIdIsUnknown()
    ensures GetPropertyName(0) == "unknown" && GetPropertyType(0) == 0
  {
    assert forall i :: 0 <= i < |REGISTRATIONS| ==> 4 <= REGISTRATIONS[i].id < 0x8000;
  }
}
