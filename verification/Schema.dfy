/** The schema: each kind of definition (attribute types, object classes) is kept in two hash
    tables, by OID and by name.  `Table` is the value of such a pair of tables. */
module SchemaTable {
  import opened Prelude

  /** A parsed definition; `id` stands for the address of the parsed structure. */
  datatype Definition = Definition(oid: Option<string>, names: Option<seq<string>>, id: int)

  datatype Table = Table(byOid: map<string, Definition>, byName: map<string, Definition>)

  const EMPTY_TABLE := Table(map[], map[])

  predicate Complete(d: Definition) { d.oid.Some? && d.names.Some? }

  function InsertNames(t: Table, d: Definition, names: seq<string>): Table
    decreases |names|
  {
    if names == [] then t
    else InsertNames(t.(byName := t.byName[names[0] := d]), d, names[1..])
  }

  function Insert(t: Table, d: Definition): Table {
    if Complete(d) then InsertNames(t.(byOid := t.byOid[d.oid.value := d]), d, d.names.value) else t
  }

  /** What the append functions return: whether the last key inserted was new. */
  predicate Inserted(t: Table, d: Definition) {
    Complete(d) &&
    var names := d.names.value;
    if names == [] then d.oid.value !in t.byOid
    else names[|names| - 1] !in t.byName && names[|names| - 1] !in names[..|names| - 1]
  }

  function InsertAll(t: Table, ds: seq<Definition>): Table {
    if ds == [] then t else Insert(InsertAll(t, ds[..|ds| - 1]), ds[|ds| - 1])
  }

  /** The schema callbacks: values are appended in turn until one does not parse, or its append
      reports a key seen before. */
  function AppendAll(t: Table, values: seq<Option<Definition>>): Table
    decreases |values|
  {
    if values == [] || values[0].None? then t
    else if Inserted(t, values[0].value) then AppendAll(Insert(t, values[0].value), values[1..])
    else Insert(t, values[0].value)
  }

  /* ---- Reference: backwards linear search through what was appended ---- */

  function LastByOid(ds: seq<Definition>, oid: string): (found: Option<Definition>)
    ensures found.Some? ==> found.value in ds && Complete(found.value) && found.value.oid.value == oid
  {
    if ds == [] then None
    else
      var d := ds[|ds| - 1];
      if Complete(d) && d.oid.value == oid then Some(d) else LastByOid(ds[..|ds| - 1], oid)
  }

  function LastByName(ds: seq<Definition>, name: string): (found: Option<Definition>)
    ensures found.Some? ==> found.value in ds && Complete(found.value) && name in found.value.names.value
  {
    if ds == [] then None
    else
      var d := ds[|ds| - 1];
      if Complete(d) && name in d.names.value then Some(d) else LastByName(ds[..|ds| - 1], name)
  }

  function Lookup(table: map<string, Definition>, key: string): Option<Definition> {
    if key in table then Some(table[key]) else None
  }

  lemma {:induction false} InsertNamesLookup(t: Table, d: Definition, names: seq<string>, name: string)
    ensures InsertNames(t, d, names).byOid == t.byOid
    ensures Lookup(InsertNames(t, d, names).byName, name) == if name in names then Some(d) else Lookup(t.byName, name)
    decreases |names|
  {
    if names != [] {
      InsertNamesLookup(t.(byName := t.byName[names[0] := d]), d, names[1..], name);
      assert name in names <==> name == names[0] || name in names[1..];
    }
  }

  /** Both tables answer as a search from the latest definition backwards would. */
  lemma {:induction false} LookupIsLastAppended(ds: seq<Definition>, key: string)
    ensures Lookup(InsertAll(EMPTY_TABLE, ds).byOid, key) == LastByOid(ds, key)
    ensures Lookup(InsertAll(EMPTY_TABLE, ds).byName, key) == LastByName(ds, key)
    decreases |ds|
  {
    if ds != [] {
      var d := ds[|ds| - 1];
      var before := InsertAll(EMPTY_TABLE, ds[..|ds| - 1]);
      LookupIsLastAppended(ds[..|ds| - 1], key);
      if Complete(d) {
        InsertNamesLookup(before.(byOid := before.byOid[d.oid.value := d]), d, d.names.value, key);
      }
    }
  }

  /** A definition found by name is one that was appended with that name; its OID is in the OID
      table, though a later definition may own it. */
  lemma {:induction false} NamesHaveOids(ds: seq<Definition>, name: string)
    ensures var t := InsertAll(EMPTY_TABLE, ds);
      name in t.byName ==>
        && t.byName[name] in ds && Complete(t.byName[name]) && name in t.byName[name].names.value
        && t.byName[name].oid.value in t.byOid
    decreases |ds|
  {
    if ds != [] {
      var d := ds[|ds| - 1];
      var before := InsertAll(EMPTY_TABLE, ds[..|ds| - 1]);
      NamesHaveOids(ds[..|ds| - 1], name);
      if Complete(d) {
        InsertNamesLookup(before.(byOid := before.byOid[d.oid.value := d]), d, d.names.value, name);
      }
    }
  }

  /** What the flag of an append says: the definition is complete, and the last of its names, or its
      OID if it has none, is not that of an earlier complete definition, nor given twice. */
  predicate IsNew(before: seq<Definition>, d: Definition) {
    && d.names.Some? && d.oid.Some?
    && var names := d.names.value;
       if names == [] then LastByOid(before, d.oid.value).None?
       else LastByName(before, names[|names| - 1]).None? && names[|names| - 1] !in names[..|names| - 1]
  }

  lemma InsertedIffNew(before: seq<Definition>, d: Definition)
    ensures Inserted(InsertAll(EMPTY_TABLE, before), d) == IsNew(before, d)
  {
    if d.names.Some? && d.oid.Some? {
      LookupIsLastAppended(before, d.oid.value);
      if d.names.value != [] { LookupIsLastAppended(before, d.names.value[|d.names.value| - 1]); }
    }
  }

  lemma {:induction false} AppendAllGrows(t: Table, values: seq<Option<Definition>>)
    ensures t.byOid.Keys <= AppendAll(t, values).byOid.Keys
    ensures t.byName.Keys <= AppendAll(t, values).byName.Keys
    decreases |values|
  {
    if values != [] && values[0].Some? {
      InsertGrows(t, values[0].value);
      if Inserted(t, values[0].value) { AppendAllGrows(Insert(t, values[0].value), values[1..]); }
    }
  }

  lemma InsertGrows(t: Table, d: Definition)
    ensures t.byOid.Keys <= Insert(t, d).byOid.Keys && t.byName.Keys <= Insert(t, d).byName.Keys
  {
    if Complete(d) {
      var u := t.(byOid := t.byOid[d.oid.value := d]);
      forall name | name in t.byName ensures name in Insert(t, d).byName {
        InsertNamesLookup(u, d, d.names.value, name);
      }
      InsertNamesLookup(u, d, d.names.value, "");
    }
  }

  /** Appending the values of an entry is appending some first part of them, all of which parse;
      it stops short only at an unparsable value or after a repeated key. */
  lemma {:induction false} AppendAllIsInsertAll(ds: seq<Definition>, values: seq<Option<Definition>>)
    returns (done: seq<Definition>)
    ensures |done| <= |values| && forall i | 0 <= i < |done| :: values[i] == Some(done[i])
    ensures AppendAll(InsertAll(EMPTY_TABLE, ds), values) == InsertAll(EMPTY_TABLE, ds + done)
    ensures |done| < |values| && values[|done|].Some? ==>
      done != [] && !Inserted(InsertAll(EMPTY_TABLE, ds + done[..|done| - 1]), done[|done| - 1])
    decreases |values|
  {
    if values == [] || values[0].None? {
      done := [];
      assert ds + [] == ds;
    } else {
      var d := values[0].value;
      assert (ds + [d])[..|ds|] == ds;
      if Inserted(InsertAll(EMPTY_TABLE, ds), d) {
        var rest := AppendAllIsInsertAll(ds + [d], values[1..]);
        done := [d] + rest;
        assert ds + [d] + rest == ds + done;
        if rest != [] { assert ds + [d] + rest[..|rest| - 1] == ds + done[..|done| - 1]; }
      } else {
        done := [d];
        assert ds + done[..0] == ds;
      }
    }
  }
}

module Schema {
  import opened Prelude
  import opened SchemaTable

  class Index {
    var byOid: map<string, Definition>
    var byName: map<string, Definition>

    /** Everything appended so far, oldest first. */
    ghost var appended: seq<Definition>

    constructor ()
      ensures Valid() && appended == [] && Contents() == EMPTY_TABLE
    {
      byOid, byName, appended := map[], map[], [];
    }

    ghost predicate Valid()
      reads this
    {
      Contents() == InsertAll(EMPTY_TABLE, appended)
    }

    ghost function Contents(): Table
      reads this
    {
      Table(byOid, byName)
    }

    method Append(definition: Option<Definition>) returns (result: bool)
      modifies this
      ensures definition.None? ==> !result && Contents() == old(Contents())
      ensures definition.Some? ==>
        && Contents() == Insert(old(Contents()), definition.value)
        && result == Inserted(old(Contents()), definition.value)
      ensures old(Valid()) && definition.Some? ==> result == IsNew(old(appended), definition.value)
      ensures appended == if definition.None? then old(appended) else old(appended) + [definition.value]
      ensures old(Valid()) ==> Valid()
    {
      if definition.Some? && Valid() { InsertedIffNew(appended, definition.value); }
      if definition.Some? {
        assert (appended + [definition.value])[..|appended|] == appended;
        appended := appended + [definition.value];
      }
      if definition.None? || definition.value.names.None? || definition.value.oid.None? {
        return false;
      }
      var d := definition.value;
      var names := d.names.value;
      result := d.oid.value !in byOid;
      byOid := byOid[d.oid.value := d];
      ghost var before := old(Contents()).(byOid := byOid);
      for i := 0 to |names|
        invariant byOid == before.byOid && appended == old(appended) + [d]
        invariant InsertNames(Contents(), d, names[i..]) == InsertNames(before, d, names)
        invariant forall name :: name in byName <==> name in before.byName || name in names[..i]
        invariant result == if i == 0 then d.oid.value !in old(byOid)
                            else names[i - 1] !in before.byName && names[i - 1] !in names[..i - 1]
      {
        assert names[i..][0] == names[i] && names[i..][1..] == names[i + 1..];
        assert names[..i + 1] == names[..i] + [names[i]];
        result := names[i] !in byName;
        byName := byName[names[i] := d];
      }
    }

    /** What a search from the latest definition backwards finds. */
    method GetByOid(oid: string) returns (found: Option<Definition>)
      requires Valid()
      ensures found == LastByOid(appended, oid)
    {
      LookupIsLastAppended(appended, oid);
      if oid in byOid { return Some(byOid[oid]); }
      return None;
    }

    method GetByName(name: string) returns (found: Option<Definition>)
      requires Valid()
      ensures found == LastByName(appended, name)
      ensures found.Some? ==> LastByOid(appended, found.value.oid.value).Some?
    {
      LookupIsLastAppended(appended, name);
      NamesHaveOids(appended, name);
      if name in byName { LookupIsLastAppended(appended, byName[name].oid.value); }
      if name in byName { return Some(byName[name]); }
      return None;
    }

    /** The definitions, one per OID, in the table's own order. */
    method List() returns (result: array<Option<Definition>>, ghost order: seq<string>)
      ensures fresh(result) && result.Length == |byOid| + 1 && result[|byOid|] == None
      ensures |order| == |byOid| && (forall oid :: oid in order <==> oid in byOid)
      ensures forall i, j | 0 <= i < j < |order| :: order[i] != order[j]
      ensures forall i | 0 <= i < |order| :: result[i] == Some(byOid[order[i]])
      ensures Valid() ==> forall i | 0 <= i < |order| :: result[i] == LastByOid(appended, order[i])
    {
      result := new Option<Definition>[|byOid| + 1](_ => None);
      order := [];
      var keys := byOid.Keys;
      var index := 0;
      while keys != {}
        invariant keys <= byOid.Keys && index == |order| && index + |keys| == |byOid|
        invariant forall oid :: oid in order <==> oid in byOid && oid !in keys
        invariant forall i, j | 0 <= i < j < |order| :: order[i] != order[j]
        invariant forall i | 0 <= i < |order| :: order[i] in byOid && result[i] == Some(byOid[order[i]])
        invariant result[|byOid|] == None
        decreases |keys|
      {
        var key :| key in keys;
        keys := keys - {key};
        result[index] := Some(byOid[key]);
        order := order + [key];
        index := index + 1;
      }
      forall i | Valid() && 0 <= i < |order| ensures result[i] == LastByOid(appended, order[i]) {
        LookupIsLastAppended(appended, order[i]);
      }
    }
  }
}
