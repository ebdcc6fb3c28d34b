/**
  A model of the reflection helpers of `BaseModel` in
  `data_struct/util_sql_basemodel.py`.

  A dataclass is its name and its declared fields in order; each field has a
  name, a type (kept as its written name) and a metadata mapping.  An
  instance is its `__dict__`: attribute names paired with values, in
  insertion order.
*/
module SqlBaseModel {

  /** A metadata value, as far as Python truthiness is concerned. */
  datatype Meta = MBool(b: bool) | MInt(i: int) | MStr(s: string) | MNone

  predicate Truthy(m: Meta) {
    match m
    case MBool(b) => b
    case MInt(i) => i != 0
    case MStr(s) => |s| > 0
    case MNone => false
  }

  datatype Field = Field(name: string, typ: string, metadata: map<string, Meta>)

  datatype ModelClass = ModelClass(name: string, fields: seq<Field>)

  /** The value `get_columns` stores per field: `{"type": ..., "metadata": ...}`. */
  datatype Column = Column(typ: string, metadata: map<string, Meta>)

  /** An instance's `__dict__`, in insertion order. */
  datatype Instance<V> = Instance(attrs: seq<(string, V)>)

  const PrimaryKeyFlag := "primary_key"

  predicate IsUpper(c: char) {
    'A' <= c <= 'Z'
  }

  function Lower(c: char): char {
    if IsUpper(c) then (c as int + 32) as char else c
  }

  /** `get_table_name`: the class name in lower case. */
  function TableName(cls: ModelClass): (r: string)
    ensures |r| == |cls.name|
    ensures forall i :: 0 <= i < |r| ==> !IsUpper(r[i])
    ensures forall i :: 0 <= i < |r| ==> r[i] == cls.name[i] || (IsUpper(cls.name[i]) && r[i] == Lower(cls.name[i]))
  {
    seq(|cls.name|, i requires 0 <= i < |cls.name| => Lower(cls.name[i]))
  }

  /** Lower-casing a table name again changes nothing. */
  lemma TableNameIdempotent(cls: ModelClass)
    ensures TableName(ModelClass(TableName(cls), cls.fields)) == TableName(cls)
  {
  }

  ghost function Names(fields: seq<Field>): set<string> {
    set f | f in fields :: f.name
  }

  /** Dataclass field names are unique. */
  ghost predicate DistinctNames(fields: seq<Field>) {
    forall i, j :: 0 <= i < j < |fields| ==> fields[i].name != fields[j].name
  }

  /** The dictionary built by `get_columns`, one assignment per field in order. */
  function Columns(fields: seq<Field>): (r: map<string, Column>)
    ensures r.Keys == Names(fields)
    ensures forall i :: 0 <= i < |fields| && (forall j :: i < j < |fields| ==> fields[j].name != fields[i].name)
              ==> r[fields[i].name] == Column(fields[i].typ, fields[i].metadata)
    decreases |fields|
  {
    if fields == [] then map[]
    else
      var init := fields[..|fields| - 1];
      var last := fields[|fields| - 1];
      assert fields == init + [last];
      Columns(init)[last.name := Column(last.typ, last.metadata)]
  }

  /** `get_columns`. */
  function GetColumns(cls: ModelClass): (r: map<string, Column>)
    ensures r.Keys == Names(cls.fields)
    ensures DistinctNames(cls.fields) ==>
              forall f :: f in cls.fields ==> r[f.name] == Column(f.typ, f.metadata)
  {
    Columns(cls.fields)
  }

  /** `metadata.get("primary_key", False)`, taken for its truth value. */
  predicate IsPrimaryKey(f: Field) {
    PrimaryKeyFlag in f.metadata && Truthy(f.metadata[PrimaryKeyFlag])
  }

  /** `get_primary_keys` over a list of fields. */
  function PrimaryKeys(fields: seq<Field>): (r: seq<string>)
    ensures |r| <= |fields|
    ensures forall x :: x in r <==> exists f :: f in fields && f.name == x && IsPrimaryKey(f)
    decreases |fields|
  {
    if fields == [] then []
    else
      assert forall f :: f in fields <==> f == fields[0] || f in fields[1..];
      (if IsPrimaryKey(fields[0]) then [fields[0].name] else []) + PrimaryKeys(fields[1..])
  }

  /** `get_primary_keys`. */
  function GetPrimaryKeys(cls: ModelClass): seq<string> {
    PrimaryKeys(cls.fields)
  }

  /** Declaration order: the keys of the first `n` fields come first, and a
      further field adds its name at the end exactly when it is a key. */
  lemma {:induction false} PrimaryKeysInDeclarationOrder(fields: seq<Field>, n: nat)
    requires n < |fields|
    ensures PrimaryKeys(fields[..n + 1])
         == PrimaryKeys(fields[..n]) + (if IsPrimaryKey(fields[n]) then [fields[n].name] else [])
    decreases n
  {
    if n > 0 {
      assert fields[..n + 1][1..] == fields[1..][..n];
      assert fields[..n][1..] == fields[1..][..n - 1];
      PrimaryKeysInDeclarationOrder(fields[1..], n - 1);
    } else {
      assert fields[..1][1..] == [];
    }
  }

  /** Every primary key names a column. */
  lemma PrimaryKeysAreColumns(cls: ModelClass)
    ensures forall x :: x in GetPrimaryKeys(cls) ==> x in GetColumns(cls)
  {
  }

  /** The dictionary of a sequence of assignments: the last one wins. */
  function DictOf<V>(pairs: seq<(string, V)>): (r: map<string, V>)
    ensures r.Keys == set p | p in pairs :: p.0
    ensures forall i :: 0 <= i < |pairs| && (forall j :: i < j < |pairs| ==> pairs[j].0 != pairs[i].0)
              ==> r[pairs[i].0] == pairs[i].1
    decreases |pairs|
  {
    if pairs == [] then map[]
    else
      var init := pairs[..|pairs| - 1];
      var last := pairs[|pairs| - 1];
      assert pairs == init + [last];
      DictOf(init)[last.0 := last.1]
  }

  /** `to_dict`. */
  function ToDict<V>(inst: Instance<V>): map<string, V> {
    DictOf(inst.attrs)
  }

  /** A dataclass instance as its generated `__init__` leaves it: one
      attribute per field, assigned in declaration order. */
  function Construct<V>(cls: ModelClass, values: seq<V>): (inst: Instance<V>)
    requires |values| == |cls.fields|
    ensures |inst.attrs| == |cls.fields|
    ensures forall i :: 0 <= i < |cls.fields| ==> inst.attrs[i] == (cls.fields[i].name, values[i])
  {
    Instance(seq(|cls.fields|, i requires 0 <= i < |cls.fields| => (cls.fields[i].name, values[i])))
  }

  /** The attribute names of a freshly built instance are the field names. */
  lemma ConstructKeys<V>(cls: ModelClass, values: seq<V>)
    requires |values| == |cls.fields|
    ensures ToDict(Construct(cls, values)).Keys == Names(cls.fields)
  {
    var inst := Construct(cls, values);
    var d := ToDict(inst);
    forall x | x in d
      ensures x in Names(cls.fields)
    {
      var p :| p in inst.attrs && p.0 == x;
      var i :| 0 <= i < |inst.attrs| && inst.attrs[i] == p;
      assert cls.fields[i] in cls.fields;
    }
    forall x | x in Names(cls.fields)
      ensures x in d
    {
      var f :| f in cls.fields && f.name == x;
      var i :| 0 <= i < |cls.fields| && cls.fields[i] == f;
      assert inst.attrs[i] in inst.attrs;
    }
  }

  /** `to_dict` of a freshly built instance has exactly the columns as keys
      and maps each field to the value it was given. */
  lemma ToDictMatchesColumns<V>(cls: ModelClass, values: seq<V>)
    requires |values| == |cls.fields|
    requires DistinctNames(cls.fields)
    ensures ToDict(Construct(cls, values)).Keys == GetColumns(cls).Keys
    ensures forall i :: 0 <= i < |cls.fields| ==> ToDict(Construct(cls, values))[cls.fields[i].name] == values[i]
  {
    ConstructKeys(cls, values);
    var attrs := Construct(cls, values).attrs;
    forall i | 0 <= i < |cls.fields|
      ensures DictOf(attrs)[cls.fields[i].name] == values[i]
    {
      assert forall j :: i < j < |attrs| ==> attrs[j].0 != attrs[i].0;
    }
  }
}
