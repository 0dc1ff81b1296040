/** `Serializer` of morphdepot/serializer.py: the filter deciding which mapped
    columns of a model go into its YAML info file and which are read back, and the
    two loops that write and read that mapping. The YAML text itself is left out:
    `dump` and `load` are taken as the mapping they encode. */
module InfoSerializer {

  /** What the filters look at in a mapped column: its name, how many foreign keys
      it has, and whether its type class is exactly `sa.String`. */
  datatype Column = Column(name: string, foreignKeys: nat, isString: bool)

  /** The names never read back. */
  const RESERVED: seq<string> := ["id", "mtime", "ctime", "dto_type"]

  /** `is_serializable`: false exactly for a foreign key that is not a string. */
  predicate IsSerializable(c: Column)
    ensures c.isString ==> IsSerializable(c)
    ensures c.foreignKeys == 0 ==> IsSerializable(c)
  {
    !(c.foreignKeys > 0 && !c.isString)
  }

  /** `is_deserializable`: false for the reserved names and for a foreign key that
      is not a string. */
  predicate IsDeserializable(c: Column)
    ensures IsDeserializable(c) ==> IsSerializable(c) && c.name !in RESERVED
  {
    !(c.name in RESERVED || (c.foreignKeys > 0 && !c.isString))
  }

  /** The reserved columns are never read back, and neither is a column that is not
      serializable; any other column is. */
  lemma FilterLaw(c: Column)
    ensures c.name in {"id", "mtime", "ctime", "dto_type"} ==> !IsDeserializable(c)
    ensures !IsSerializable(c) ==> !IsDeserializable(c)
    ensures IsDeserializable(c) <==> IsSerializable(c) && c.name !in {"id", "mtime", "ctime", "dto_type"}
  {
  }

  predicate UniqueNames(columns: seq<Column>) {
    forall i, j :: 0 <= i < j < |columns| ==> columns[i].name != columns[j].name
  }

  predicate HasAttributes<V>(columns: seq<Column>, attrs: map<string, V>) {
    forall i :: 0 <= i < |columns| ==> columns[i].name in attrs
  }

  /** The mapping `serialize` builds as written: a column is skipped when it IS
      serializable, so only the others are written. */
  function Serialized<V>(columns: seq<Column>, attrs: map<string, V>): (r: map<string, V>)
    requires HasAttributes(columns, attrs)
    ensures forall k :: k in r ==> k in attrs && r[k] == attrs[k]
  {
    if columns == [] then map[]
    else
      var c := columns[|columns| - 1];
      var m := Serialized(columns[..|columns| - 1], attrs);
      if IsSerializable(c) then m else m[c.name := attrs[c.name]]
  }

  /** The mapping the comment describes: exactly the serializable columns. */
  function FixedSerialized<V>(columns: seq<Column>, attrs: map<string, V>): map<string, V>
    requires HasAttributes(columns, attrs)
  {
    if columns == [] then map[]
    else
      var c := columns[|columns| - 1];
      var m := FixedSerialized(columns[..|columns| - 1], attrs);
      if IsSerializable(c) then m[c.name := attrs[c.name]] else m
  }

  /** The attributes `deserialize` leaves: the model's defaults, with every
      deserializable column the mapping names set to the mapped value. */
  function Deserialized<V>(columns: seq<Column>, defaults: map<string, V>, parsed: map<string, V>): (r: map<string, V>)
    ensures defaults.Keys <= r.Keys <= defaults.Keys + parsed.Keys
    ensures forall k :: k in r ==> (k in defaults && r[k] == defaults[k]) || (k in parsed && r[k] == parsed[k])
  {
    if columns == [] then defaults
    else
      var c := columns[|columns| - 1];
      var m := Deserialized(columns[..|columns| - 1], defaults, parsed);
      if c.name in parsed && IsDeserializable(c) then m[c.name := parsed[c.name]] else m
  }

  /** As written, `serialize` emits exactly the columns that are not serializable,
      each with the object's value. */
  lemma {:induction false} SerializedLaw<V>(columns: seq<Column>, attrs: map<string, V>)
    requires HasAttributes(columns, attrs)
    ensures forall n :: n in Serialized(columns, attrs) <==>
      exists i :: 0 <= i < |columns| && columns[i].name == n && !IsSerializable(columns[i])
    ensures forall n :: n in Serialized(columns, attrs) ==> n in attrs && Serialized(columns, attrs)[n] == attrs[n]
    decreases |columns|
  {
    if columns != [] {
      var init := columns[..|columns| - 1];
      SerializedLaw(init, attrs);
      forall n ensures n in Serialized(columns, attrs) <==>
        exists i :: 0 <= i < |columns| && columns[i].name == n && !IsSerializable(columns[i])
      {
        if exists i :: 0 <= i < |init| && init[i].name == n && !IsSerializable(init[i]) {
          var i :| 0 <= i < |init| && init[i].name == n && !IsSerializable(init[i]);
          assert columns[i] == init[i];
        }
        if exists i :: 0 <= i < |columns| && columns[i].name == n && !IsSerializable(columns[i]) {
          var i :| 0 <= i < |columns| && columns[i].name == n && !IsSerializable(columns[i]);
          if i < |init| {
            assert init[i] == columns[i];
          }
        }
      }
    }
  }

  /** The fixed `serialize` emits exactly the serializable columns. */
  lemma {:induction false} FixedSerializedLaw<V>(columns: seq<Column>, attrs: map<string, V>)
    requires HasAttributes(columns, attrs)
    ensures forall n :: n in FixedSerialized(columns, attrs) <==>
      exists i :: 0 <= i < |columns| && columns[i].name == n && IsSerializable(columns[i])
    ensures forall n :: n in FixedSerialized(columns, attrs) ==> n in attrs && FixedSerialized(columns, attrs)[n] == attrs[n]
    decreases |columns|
  {
    if columns != [] {
      var init := columns[..|columns| - 1];
      FixedSerializedLaw(init, attrs);
      forall n ensures n in FixedSerialized(columns, attrs) <==>
        exists i :: 0 <= i < |columns| && columns[i].name == n && IsSerializable(columns[i])
      {
        if exists i :: 0 <= i < |init| && init[i].name == n && IsSerializable(init[i]) {
          var i :| 0 <= i < |init| && init[i].name == n && IsSerializable(init[i]);
          assert columns[i] == init[i];
        }
        if exists i :: 0 <= i < |columns| && columns[i].name == n && IsSerializable(columns[i]) {
          var i :| 0 <= i < |columns| && columns[i].name == n && IsSerializable(columns[i]);
          if i < |init| {
            assert init[i] == columns[i];
          }
        }
      }
    }
  }

  /** `deserialize` changes an attribute exactly when a deserializable column of
      that name is in the mapping; everything else keeps the model's default. */
  lemma {:induction false} DeserializedLaw<V>(columns: seq<Column>, defaults: map<string, V>, parsed: map<string, V>)
    requires UniqueNames(columns)
    ensures forall i :: 0 <= i < |columns| && columns[i].name in parsed && IsDeserializable(columns[i]) ==>
      columns[i].name in Deserialized(columns, defaults, parsed) &&
      Deserialized(columns, defaults, parsed)[columns[i].name] == parsed[columns[i].name]
    ensures forall n :: (forall i :: 0 <= i < |columns| && columns[i].name == n ==>
        !(n in parsed && IsDeserializable(columns[i]))) ==>
      (n in Deserialized(columns, defaults, parsed) <==> n in defaults) &&
      (n in defaults ==> Deserialized(columns, defaults, parsed)[n] == defaults[n])
    decreases |columns|
  {
    if columns != [] {
      var init := columns[..|columns| - 1];
      DeserializedLaw(init, defaults, parsed);
      var last := columns[|columns| - 1];
      forall i | 0 <= i < |columns| && columns[i].name in parsed && IsDeserializable(columns[i])
        ensures columns[i].name in Deserialized(columns, defaults, parsed) &&
          Deserialized(columns, defaults, parsed)[columns[i].name] == parsed[columns[i].name]
      {
        if i < |init| {
          assert init[i] == columns[i];
          assert columns[i].name != last.name;
        }
      }
      forall n | (forall i :: 0 <= i < |columns| && columns[i].name == n ==> !(n in parsed && IsDeserializable(columns[i])))
        ensures (n in Deserialized(columns, defaults, parsed) <==> n in defaults) &&
          (n in defaults ==> Deserialized(columns, defaults, parsed)[n] == defaults[n])
      {
        forall i | 0 <= i < |init| && init[i].name == n ensures !(n in parsed && IsDeserializable(init[i])) {
          assert init[i] == columns[i];
        }
      }
    }
  }

  /** The consequence of the inverted skip: reading back what `serialize` wrote
      changes nothing, because only columns that are never read back are written. */
  lemma SerializeRoundTripAsWritten<V>(columns: seq<Column>, attrs: map<string, V>, defaults: map<string, V>)
    requires UniqueNames(columns) && HasAttributes(columns, attrs)
    ensures Deserialized(columns, defaults, Serialized(columns, attrs)) == defaults
  {
    var parsed := Serialized(columns, attrs);
    SerializedLaw(columns, attrs);
    DeserializedLaw(columns, defaults, parsed);
    var d := Deserialized(columns, defaults, parsed);
    forall n ensures (n in d <==> n in defaults) && (n in defaults ==> d[n] == defaults[n]) {
      forall i | 0 <= i < |columns| && columns[i].name == n ensures !(n in parsed && IsDeserializable(columns[i])) {
        if n in parsed {
          var j :| 0 <= j < |columns| && columns[j].name == n && !IsSerializable(columns[j]);
          assert i == j;
        }
      }
    }
    assert d.Keys == defaults.Keys;
  }

  /** With the skip as the comment describes it, every deserializable column comes
      back with the object's value. */
  lemma SerializeRoundTripFixed<V>(columns: seq<Column>, attrs: map<string, V>, defaults: map<string, V>)
    requires UniqueNames(columns) && HasAttributes(columns, attrs)
    ensures forall i :: 0 <= i < |columns| && IsDeserializable(columns[i]) ==>
      columns[i].name in Deserialized(columns, defaults, FixedSerialized(columns, attrs)) &&
      Deserialized(columns, defaults, FixedSerialized(columns, attrs))[columns[i].name] == attrs[columns[i].name]
  {
    var parsed := FixedSerialized(columns, attrs);
    FixedSerializedLaw(columns, attrs);
    DeserializedLaw(columns, defaults, parsed);
    forall i | 0 <= i < |columns| && IsDeserializable(columns[i]) ensures columns[i].name in parsed {
      assert IsSerializable(columns[i]);
    }
  }

  /** A model object: its attribute values by name. */
  class Instance<V> {
    var attrs: map<string, V>

    constructor (defaults: map<string, V>)
      ensures attrs == defaults
    {
      attrs := defaults;
    }
  }

  /** `Serializer.serialize(obj)`: the loop over the mapped columns, before `dump`. */
  method Serialize<V>(obj: Instance<V>, columns: seq<Column>) returns (yamlObj: map<string, V>)
    requires HasAttributes(columns, obj.attrs)
    ensures yamlObj == Serialized(columns, obj.attrs)
  {
    yamlObj := map[];
    var i := 0;
    while i < |columns|
      invariant 0 <= i <= |columns|
      invariant yamlObj == Serialized(columns[..i], obj.attrs)
    {
      var column := columns[i];
      assert columns[..i + 1][..i] == columns[..i];
      i := i + 1;
      if IsSerializable(column) {
        continue;
      }
      var name := column.name;
      yamlObj := yamlObj[name := obj.attrs[name]];
    }
    assert columns[..i] == columns;
  }

  /** `serialize` with the skip the comment describes. */
  method FixedSerialize<V>(obj: Instance<V>, columns: seq<Column>) returns (yamlObj: map<string, V>)
    requires HasAttributes(columns, obj.attrs)
    ensures yamlObj == FixedSerialized(columns, obj.attrs)
  {
    yamlObj := map[];
    var i := 0;
    while i < |columns|
      invariant 0 <= i <= |columns|
      invariant yamlObj == FixedSerialized(columns[..i], obj.attrs)
    {
      var column := columns[i];
      assert columns[..i + 1][..i] == columns[..i];
      i := i + 1;
      if !IsSerializable(column) {
        continue;
      }
      yamlObj := yamlObj[column.name := obj.attrs[column.name]];
    }
    assert columns[..i] == columns;
  }

  /** `Serializer.deserialize(model, yaml_string)`: a fresh `model()` with the
      parsed values set on its deserializable columns. */
  method Deserialize<V>(defaults: map<string, V>, columns: seq<Column>, parsed: map<string, V>) returns (obj: Instance<V>)
    ensures fresh(obj)
    ensures obj.attrs == Deserialized(columns, defaults, parsed)
  {
    obj := new Instance(defaults);
    var i := 0;
    while i < |columns|
      invariant 0 <= i <= |columns|
      invariant obj.attrs == Deserialized(columns[..i], defaults, parsed)
    {
      var name := columns[i].name;
      if name in parsed && IsDeserializable(columns[i]) {
        obj.attrs := obj.attrs[name := parsed[name]];
      }
      assert columns[..i + 1][..i] == columns[..i];
      i := i + 1;
    }
    assert columns[..i] == columns;
  }
}
