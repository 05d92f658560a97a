/** Global variables: a table of names, and in each name the cell where it was last looked for. */
module Globals {
  import opened Types
  import opened Values
  import opened Probing
  import opened Strings
  import opened Tables

  class GlobalVariables {
    var fields: Table
    ghost var names: set<ObjString>   // every name that was ever looked for

    /** A cached symbol is always the index of a cell. */
    ghost predicate Valid()
      reads this, fields, fields.entries, names
    {
      && fields.Valid() && fields.isGlobal && !fields.isFrozen && fields.contents.Keys <= names
      && forall s :: s in names ==> s.symbol == INVALID_OBJ_STRING_SYMBOL || s.symbol < fields.capacity
    }

    ghost predicate Knows(name: ObjString)
      reads this, name
    {
      name in names || name.symbol == INVALID_OBJ_STRING_SYMBOL
    }

    constructor ()
      ensures Valid() && fields.contents == map[] && names == {}
    {
      fields := new Table(true);
      names := {};
    }

    method DefineGlobal(name: ObjString, value: Value)
      requires Valid() && Knows(name)
      modifies this, fields, fields.entries, names`symbol, name`symbol
      ensures Valid() && fields == old(fields) && names == old(names) + {name}
      ensures fields.contents == old(fields.contents)[name := value]
    {
      var _ := fields.Set(name, value);
      names := names + {name};
    }

    /** Reading through the cached cell, or by a full search, gives what the variables hold. */
    method GetGlobal(name: ObjString) returns (value: Option<Value>)
      requires Valid() && Knows(name)
      modifies this`names, name`symbol
      ensures Valid() && names == old(names) + {name}
      ensures value == if name in fields.contents then Some(fields.contents[name]) else None
    {
      names := names + {name};
      if name.symbol != INVALID_OBJ_STRING_SYMBOL {
        var entry := fields.entries[name.symbol];
        if entry.key == name {
          fields.Pair(name.symbol);
          return Some(entry.value);
        }
      }
      value := fields.Get(name);
    }

    /** Only a defined variable can be assigned; the attempt on another one, which enters and deletes the name, changes
        no variable. */
    method SetGlobal(name: ObjString, value: Value) returns (ok: bool)
      requires Valid() && Knows(name)
      modifies this, fields, fields.entries, names`symbol, name`symbol
      ensures Valid() && fields == old(fields) && names == old(names) + {name}
      ensures ok == (name in old(fields.contents))
      ensures fields.contents == if ok then old(fields.contents)[name := value] else old(fields.contents)
    {
      hide Probed, Capacity, Used, Cells;
      names := names + {name};
      if name.symbol != INVALID_OBJ_STRING_SYMBOL {
        var index := name.symbol;
        if fields.entries[index].key == name {
          fields.Pair(index);
          fields.Overwrite(index, value);
          return true;
        }
      }
      ok := EnterDefined(name, value);
    }

    /** A full search: a name that turns out to be new is deleted again. */
    method EnterDefined(name: ObjString, value: Value) returns (ok: bool)
      requires Valid() && name in names
      modifies this, fields, fields.entries, names`symbol
      ensures Valid() && fields == old(fields) && names == old(names)
      ensures ok == (name in old(fields.contents))
      ensures fields.contents == if ok then old(fields.contents)[name := value] else old(fields.contents)
    {
      hide Probed, Capacity, Used, Cells;
      ghost var before := fields.contents;
      var isNewKey := fields.Set(name, value);
      if isNewKey {
        var _ := fields.Delete(name);
        assert before[name := value] - {name} == before;
      }
      ok := !isNewKey;
    }
  }
}
