/**
 * Extra fields attached to structures: a list of (structure, name, value)
 * entries, newest first, looked up by the identity of the structure and
 * the text of the name.
 */
module Fields {
  import opened Wrappers

  /** The identity of a structure: its address. */
  type Addr = nat

  /** `struct field`. */
  datatype Field<V> = Field(strct: Addr, name: string, val: V)

  /** `__field_find`: the first, so newest, entry for that structure and
    * name. */
  function FindField<V>(fs: seq<Field<V>>, strct: Addr, name: string, from: nat): (r: Option<nat>)
    requires from <= |fs|
    ensures r.Some? ==> from <= r.value < |fs| && fs[r.value].strct == strct && fs[r.value].name == name
    ensures r.Some? ==> forall k :: from <= k < r.value ==> !(fs[k].strct == strct && fs[k].name == name)
    ensures r.None? ==> forall k :: from <= k < |fs| ==> !(fs[k].strct == strct && fs[k].name == name)
    decreases |fs| - from
  {
    if from == |fs| then None
    else if fs[from].strct == strct && fs[from].name == name then Some(from)
    else FindField(fs, strct, name, from + 1)
  }

  /** `field_value`: the value of the newest entry, None for NULL. */
  function ValueOf<V>(fs: seq<Field<V>>, strct: Addr, name: string): Option<V>
  {
    match FindField(fs, strct, name, 0)
    case None => None
    case Some(i) => Some(fs[i].val)
  }

  /** `field_detach`: the newest entry for that structure and name taken
    * out (`talloc_free(NULL)` does nothing when there is none). */
  function Detached<V>(fs: seq<Field<V>>, strct: Addr, name: string): (r: seq<Field<V>>)
  {
    match FindField(fs, strct, name, 0)
    case None => fs
    case Some(i) => fs[..i] + fs[i + 1..]
  }

  /** `field_detach_all`: the entries of that structure taken out, the
    * others kept in order. */
  function Others<V>(fs: seq<Field<V>>, strct: Addr): (r: seq<Field<V>>)
    ensures forall k :: 0 <= k < |r| ==> r[k] in fs && r[k].strct != strct
    ensures forall k :: 0 <= k < |fs| && fs[k].strct != strct ==> fs[k] in r
    decreases |fs|
  {
    if |fs| == 0 then []
    else if fs[|fs| - 1].strct == strct then Others(fs[..|fs| - 1], strct)
    else Others(fs[..|fs| - 1], strct) + [fs[|fs| - 1]]
  }

  /** After `field_attach(s, n, v)`, the field exists and its value is `v`,
    * whatever was attached before. */
  lemma AttachThenValue<V>(fs: seq<Field<V>>, strct: Addr, name: string, v: V)
    ensures FindField([Field(strct, name, v)] + fs, strct, name, 0) == Some(0)
    ensures ValueOf([Field(strct, name, v)] + fs, strct, name) == Some(v)
  {
  }

  /** A structure and name never attached have no field and no value. */
  lemma MissingHasNoValue<V>(fs: seq<Field<V>>, strct: Addr, name: string)
    requires forall k :: 0 <= k < |fs| ==> !(fs[k].strct == strct && fs[k].name == name)
    ensures FindField(fs, strct, name, 0).None? && ValueOf(fs, strct, name).None?
  {
  }

  /** Detaching takes out only the newest entry: the one attached before it
    * for the same key, if any, is visible again. */
  lemma DetachUndoesAttach<V>(fs: seq<Field<V>>, strct: Addr, name: string, v: V)
    ensures Detached([Field(strct, name, v)] + fs, strct, name) == fs
  {
    assert ([Field(strct, name, v)] + fs)[1..] == fs;
  }

  /** Detaching one key leaves the lookups of every other key as they
    * were. */
  lemma DetachKeepsOtherKeys<V>(fs: seq<Field<V>>, strct: Addr, name: string, s2: Addr, n2: string)
    requires s2 != strct || n2 != name
    ensures ValueOf(Detached(fs, strct, name), s2, n2) == ValueOf(fs, s2, n2)
  {
    var gone := FindField(fs, strct, name, 0);
    if gone.Some? {
      var i := gone.value;
      var r := fs[..i] + fs[i + 1..];
      var found := FindField(fs, s2, n2, 0);
      if found.None? {
        assert forall k :: 0 <= k < |r| ==> r[k] == (if k < i then fs[k] else fs[k + 1]);
        assert FindField(r, s2, n2, 0).None?;
      } else {
        var j := found.value;
        var j' := if j < i then j else j - 1;
        assert j != i;
        assert r[j'] == fs[j];
        assert forall k :: 0 <= k < j' ==> r[k] == (if k < i then fs[k] else fs[k + 1]);
        FirstOfAt(r, s2, n2, j');
      }
    }
  }

  /** An entry with no entry of its key before it is what the lookup finds. */
  lemma FirstOfAt<V>(fs: seq<Field<V>>, strct: Addr, name: string, j: nat)
    requires j < |fs| && fs[j].strct == strct && fs[j].name == name
    requires forall k :: 0 <= k < j ==> !(fs[k].strct == strct && fs[k].name == name)
    ensures FindField(fs, strct, name, 0) == Some(j)
  {
  }

  /** After `field_detach_all(s)`, `s` has no field left under any name,
    * and every other structure's lookups are unchanged. */
  lemma {:induction false} DetachAllRules<V>(fs: seq<Field<V>>, strct: Addr, s2: Addr, n2: string)
    requires s2 != strct
    ensures FindField(Others(fs, strct), strct, n2, 0).None?
    ensures ValueOf(Others(fs, strct), s2, n2) == ValueOf(fs, s2, n2)
    decreases |fs|
  {
    if |fs| > 0 {
      var init := fs[..|fs| - 1];
      DetachAllRules(init, strct, s2, n2);
      LookupExtended(init, fs[|fs| - 1], s2, n2);
      assert fs == init + [fs[|fs| - 1]];
      if fs[|fs| - 1].strct != strct {
        LookupExtended(Others(init, strct), fs[|fs| - 1], s2, n2);
      }
    }
  }

  /** Adding an entry at the old end changes a lookup only when nothing
    * before it matched. */
  lemma LookupExtended<V>(fs: seq<Field<V>>, f: Field<V>, strct: Addr, name: string)
    ensures ValueOf(fs + [f], strct, name) ==
      if ValueOf(fs, strct, name).Some? then ValueOf(fs, strct, name)
      else if f.strct == strct && f.name == name then Some(f.val)
      else None
  {
    var t := fs + [f];
    var i := FindField(fs, strct, name, 0);
    if i.Some? {
      assert forall k :: 0 <= k < |fs| ==> t[k] == fs[k];
      FirstOfAt(t, strct, name, i.value);
    } else if f.strct == strct && f.name == name {
      FirstOfAt(t, strct, name, |fs|);
    } else {
      assert forall k :: 0 <= k < |t| ==> t[k] == if k < |fs| then fs[k] else f;
    }
  }

  /** The C global `fields` list, newest first. */
  class FieldList<V> {
    var fields: seq<Field<V>>

    constructor ()
      ensures fields == []
    {
      fields := [];
    }

    /** `field_attach` and `field_attach_static`: the new entry heads the
      * list. */
    method Attach(strct: Addr, name: string, val: V)
      modifies this
      ensures fields == [Field(strct, name, val)] + old(fields)
    {
      fields := [Field(strct, name, val)] + fields;
    }

    /** The list walk of `__field_find`. */
    method Find(strct: Addr, name: string) returns (r: Option<nat>)
      ensures r == FindField(fields, strct, name, 0)
    {
      var i := 0;
      while i < |fields|
        invariant i <= |fields| && FindField(fields, strct, name, 0) == FindField(fields, strct, name, i)
      {
        if strct == fields[i].strct && name == fields[i].name {
          return Some(i);
        }
        i := i + 1;
      }
      return None;
    }

    /** `field_exists`. */
    method Exists(strct: Addr, name: string) returns (b: bool)
      ensures b <==> exists k :: 0 <= k < |fields| && fields[k].strct == strct && fields[k].name == name
    {
      var f := Find(strct, name);
      return f.Some?;
    }

    /** `field_value`. */
    method Value(strct: Addr, name: string) returns (r: Option<V>)
      ensures r == ValueOf(fields, strct, name)
    {
      var f := Find(strct, name);
      if f.None? {
        return None;
      }
      return Some(fields[f.value].val);
    }

    /** `field_detach`. */
    method Detach(strct: Addr, name: string)
      modifies this
      ensures fields == Detached(old(fields), strct, name)
    {
      var f := Find(strct, name);
      if f.Some? {
        fields := fields[..f.value] + fields[f.value + 1..];
      }
    }

    /** `field_detach_all`: the safe list walk freeing every entry of the
      * structure. */
    method DetachAll(strct: Addr)
      modifies this
      ensures fields == Others(old(fields), strct)
    {
      var kept: seq<Field<V>> := [];
      var i := 0;
      while i < |fields|
        invariant i <= |fields| && kept == Others(fields[..i], strct)
      {
        assert fields[..i + 1][..i] == fields[..i];
        if fields[i].strct != strct {
          kept := kept + [fields[i]];
        }
        i := i + 1;
      }
      assert fields[..i] == fields;
      fields := kept;
    }
  }
}
