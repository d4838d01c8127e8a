/**
 * The struct symbol type, an object whose field list the builder fills one field at
 * a time; its value is `StructS(fields)`.
 */
module StructSymbols {
  import opened Strings
  import opened SymbolTypes

  /** The struct symbol type, filled one field at a time. */
  class StructSymbolType {
    var fields: seq<SField>

    constructor ()
      ensures fields == []
    {
      fields := [];
    }

    function Value(): SymbolType
      reads this
    {
      StructS(fields)
    }

    method AddField(id: string, t: SymbolType)
      modifies this
      ensures fields == old(fields) + [SField(id, t)]
    {
      fields := fields + [SField(id, t)];
    }

    /** "struct(" and the fields as "id type" in insertion order, comma-separated. */
    method ToString() returns (s: string)
      ensures s == SymbolTypes.ToString(Value())
    {
      s := "struct(";
      var rest := false;
      var i := 0;
      while i < |fields|
        invariant 0 <= i <= |fields|
        invariant rest <==> i > 0
        invariant s == "struct(" + Join(FieldStrings(fields[..i], StructS(fields[..i])), ", ")
      {
        var f := fields[i].id + " " + SymbolTypes.ToString(fields[i].ftype);
        FieldStringsSnoc(fields, i);
        if rest {
          s := s + ", ";
          JoinSnoc(FieldStrings(fields[..i], StructS(fields[..i])), f, ", ");
        } else {
          rest := true;
          JoinSingleton(f, ", ");
        }
        s := s + f;
        i := i + 1;
      }
      s := s + ")";
      assert fields[..i] == fields;
      StructToString(fields);
    }
  }

  lemma FieldStringsSnoc(fs: seq<SField>, i: nat)
    requires i < |fs|
    ensures FieldStrings(fs[..i + 1], StructS(fs[..i + 1]))
         == FieldStrings(fs[..i], StructS(fs[..i])) + [fs[i].id + " " + SymbolTypes.ToString(fs[i].ftype)]
  {
  }

  lemma StructToString(fs: seq<SField>)
    ensures SymbolTypes.ToString(StructS(fs)) == "struct(" + Join(FieldStrings(fs, StructS(fs)), ", ") + ")"
  {
  }
}
