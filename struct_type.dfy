/**
 * The struct type, an object whose field list grows as the symbol-table builder
 * reads a struct declaration; its value in the type lattice is `StructT(fields)`.
 */
module Structs {
  import opened Wrappers
  import opened Strings
  import opened Types

  /** The first position of a field named `id`. */
  function FieldIndex(fs: seq<Field>, id: string): (r: Option<nat>)
    ensures r.Some? ==> (r.value < |fs| && fs[r.value].id == id
      && forall j :: 0 <= j < r.value ==> fs[j].id != id)
    ensures r.None? <==> forall j :: 0 <= j < |fs| ==> fs[j].id != id
    decreases |fs|
  {
    if |fs| == 0 then None
    else if fs[0].id == id then Some(0)
    else match FieldIndex(fs[1..], id)
      case None => None
      case Some(k) => Some(k + 1)
  }

  class StructType {
    var fields: seq<Field>

    constructor ()
      ensures fields == []
    {
      fields := [];
    }

    /** This struct as a type value. */
    function Value(): GoLiteType
      reads this
    {
      StructT(fields)
    }

    method Size() returns (n: nat)
      ensures n == |fields|
    {
      n := |fields|;
    }

    /** Appends a field; duplicates are not rejected here. */
    method AddField(id: string, t: GoLiteType)
      modifies this
      ensures fields == old(fields) + [Field(id, t)]
    {
      fields := fields + [Field(id, t)];
    }

    method HasField(id: string) returns (b: bool)
      ensures b <==> exists i :: 0 <= i < |fields| && fields[i].id == id
    {
      var i := 0;
      while i < |fields|
        invariant 0 <= i <= |fields|
        invariant forall j :: 0 <= j < i ==> fields[j].id != id
      {
        if fields[i].id == id {
          return true;
        }
        i := i + 1;
      }
      return false;
    }

    /** The first field named `id`, or the error "No such field <id>". */
    method GetField(id: string) returns (r: Result<Field, string>)
      ensures r.Ok? <==> FieldIndex(fields, id).Some?
      ensures r.Ok? ==> r.value == fields[FieldIndex(fields, id).value]
      ensures r.Err? ==> r.error == "No such field " + id
    {
      var i := 0;
      while i < |fields|
        invariant 0 <= i <= |fields|
        invariant forall j :: 0 <= j < i ==> fields[j].id != id
      {
        if fields[i].id == id {
          FieldIndexFirst(fields, id, i);
          return Ok(fields[i]);
        }
        i := i + 1;
      }
      return Err("No such field " + id);
    }

    method GetFieldType(id: string) returns (r: Result<GoLiteType, string>)
      ensures r.Ok? <==> FieldIndex(fields, id).Some?
      ensures r.Ok? ==> r.value == fields[FieldIndex(fields, id).value].ftype
      ensures r.Err? ==> r.error == "No such field " + id
    {
      var f := GetField(id);
      if f.Err? {
        return Err(f.error);
      }
      return Ok(f.value.ftype);
    }

    /** A new struct with the same ids in the same order, each with its underlying type. */
    method GetUnderlyingType() returns (u: StructType)
      ensures fresh(u)
      ensures u.Value() == Underlying(Value())
    {
      u := new StructType();
      var i := 0;
      while i < |fields|
        invariant 0 <= i <= |fields|
        invariant u.fields == UnderlyingFields(fields[..i], StructT(fields[..i]))
        invariant fresh(u)
      {
        assert fields[..i + 1][..i] == fields[..i];
        u.AddField(fields[i].id, Underlying(fields[i].ftype));
        i := i + 1;
      }
      assert fields[..i] == fields;
    }

    /** `equals`: the other type is a struct with as many fields, pairwise equal by id and type. */
    method Equals(o: GoLiteType) returns (b: bool)
      ensures b == Types.Equals(Value(), o)
    {
      if !o.StructT? {
        return false;
      }
      if |fields| != |o.fields| {
        return false;
      }
      var i := 0;
      while i < |o.fields|
        invariant 0 <= i <= |o.fields|
        invariant forall j :: 0 <= j < i ==>
          fields[j].id == o.fields[j].id && Types.Equals(fields[j].ftype, o.fields[j].ftype)
      {
        if !(fields[i].id == o.fields[i].id && Types.Equals(fields[i].ftype, o.fields[i].ftype)) {
          return false;
        }
        i := i + 1;
      }
      return true;
    }

    /** `toString`: "struct(" and the fields as "id type", comma-separated, then ")". */
    method ToString() returns (s: string)
      ensures s == Types.ToString(Value())
    {
      s := "struct(";
      var rest := false;
      var i := 0;
      while i < |fields|
        invariant 0 <= i <= |fields|
        invariant rest <==> i > 0
        invariant s == "struct(" + Join(FieldStrings(fields[..i], StructT(fields[..i])), ", ")
      {
        var f := fields[i].id + " " + Types.ToString(fields[i].ftype);
        FieldStringsSnoc(fields, i);
        if rest {
          s := s + ", ";
          JoinSnoc(FieldStrings(fields[..i], StructT(fields[..i])), f, ", ");
        } else {
          rest := true;
          JoinSingleton(f, ", ");
        }
        s := s + f;
        i := i + 1;
      }
      s := s + ")";
      assert fields[..i] == fields;
      StructToString(fields);
    }
  }

  lemma FieldStringsSnoc(fs: seq<Field>, i: nat)
    requires i < |fs|
    ensures FieldStrings(fs[..i + 1], StructT(fs[..i + 1]))
         == FieldStrings(fs[..i], StructT(fs[..i])) + [fs[i].id + " " + Types.ToString(fs[i].ftype)]
  {
  }

  lemma StructToString(fs: seq<Field>)
    ensures Types.ToString(StructT(fs)) == "struct(" + Join(FieldStrings(fs, StructT(fs)), ", ") + ")"
  {
  }

  lemma {:induction false} FieldIndexFirst(fs: seq<Field>, id: string, i: nat)
    requires i < |fs| && fs[i].id == id && forall j :: 0 <= j < i ==> fs[j].id != id
    ensures FieldIndex(fs, id) == Some(i)
    decreases i
  {
    if i > 0 {
      FieldIndexFirst(fs[1..], id, i - 1);
    }
  }

  /** Building a struct field by field and then adding one more keeps the earlier
      fields, grows the size by one, and makes the new id present. */
  lemma AddFieldGrows(fs: seq<Field>, id: string, t: GoLiteType)
    ensures |fs + [Field(id, t)]| == |fs| + 1
    ensures (fs + [Field(id, t)])[..|fs|] == fs
    ensures FieldIndex(fs + [Field(id, t)], id).Some?
    ensures FieldIndex(fs, id).Some? ==> FieldIndex(fs + [Field(id, t)], id) == FieldIndex(fs, id)
  {
    var gs := fs + [Field(id, t)];
    if FieldIndex(fs, id).Some? {
      var k := FieldIndex(fs, id).value;
      FieldIndexFirst(gs, id, k);
    } else {
      FieldIndexFirst(gs, id, |fs|);
    }
  }
}
