/** The constants of a program: each number and each string is kept once. */
module Constants {
  import opened Hashing
  import opened Strings
  import NumberTables
  import StringTables

  const UINT32_MAX: nat := 0xFFFF_FFFF

  /** Numbers are told apart by their bits, strings by their interned object. */
  datatype Constant = Number(bits: Word) | Text(s: ObjString) | Other(id: nat)

  /** The indexes that a pool keeps for its keys are those of the constants made from them. */
  ghost predicate NumbersIndexed(constants: seq<Constant>, indexes: map<Word, nat>) {
    && (forall n :: n in indexes && indexes[n] != UINT32_MAX ==>
          indexes[n] < |constants| && constants[indexes[n]] == Number(n))
    && (forall i :: 0 <= i < |constants| && constants[i].Number? ==>
          constants[i].bits in indexes && indexes[constants[i].bits] == i)
  }

  ghost predicate TextsIndexed(constants: seq<Constant>, indexes: map<ObjString, nat>) {
    && (forall s :: s in indexes && indexes[s] != UINT32_MAX ==>
          indexes[s] < |constants| && constants[indexes[s]] == Text(s))
    && (forall i :: 0 <= i < |constants| && constants[i].Text? ==>
          constants[i].s in indexes && indexes[constants[i].s] == i)
  }

  lemma NumberEntered(constants: seq<Constant>, indexes: map<Word, nat>, n: Word)
    requires NumbersIndexed(constants, indexes)
    ensures n !in indexes ==> NumbersIndexed(constants, indexes[n := UINT32_MAX])
    ensures n in indexes && indexes[n] != UINT32_MAX ==>
              indexes[n] < |constants| && constants[indexes[n]] == Number(n) && Number(n) in constants
  {
  }

  lemma NumberAdded(constants: seq<Constant>, indexes: map<Word, nat>, n: Word, texts: map<ObjString, nat>)
    requires NumbersIndexed(constants, indexes) && TextsIndexed(constants, texts)
    requires n in indexes && indexes[n] == UINT32_MAX && |constants| < UINT32_MAX
    ensures Number(n) !in constants
    ensures NumbersIndexed(constants + [Number(n)], indexes[n := |constants|])
    ensures TextsIndexed(constants + [Number(n)], texts)
  {
  }

  lemma TextAdded(constants: seq<Constant>, indexes: map<ObjString, nat>, s: ObjString, numbers: map<Word, nat>)
    requires TextsIndexed(constants, indexes) && NumbersIndexed(constants, numbers)
    requires s in indexes && |constants| < UINT32_MAX
    ensures if indexes[s] == UINT32_MAX
            then && Text(s) !in constants && TextsIndexed(constants + [Text(s)], indexes[s := |constants|])
                 && NumbersIndexed(constants + [Text(s)], numbers)
                 && indexes[s := |constants|].Keys == indexes.Keys
            else indexes[s] < |constants| && constants[indexes[s]] == Text(s) && Text(s) in constants
  {
  }

  lemma OtherAdded(constants: seq<Constant>, other: Constant, texts: map<ObjString, nat>, numbers: map<Word, nat>)
    requires TextsIndexed(constants, texts) && NumbersIndexed(constants, numbers) && other.Other?
    ensures TextsIndexed(constants + [other], texts) && NumbersIndexed(constants + [other], numbers)
  {
  }

  class ConstantPool {
    var constants: seq<Constant>
    const numbers: NumberTables.NumberTable
    const strings: StringTables.StringTable

    ghost predicate Valid()
      reads this, numbers, numbers.entries, strings, strings.entries
    {
      && numbers.Valid() && strings.Valid()
      && NumbersIndexed(constants, numbers.contents) && TextsIndexed(constants, strings.contents)
    }

    constructor ()
      ensures Valid() && constants == [] && fresh(numbers) && fresh(strings) && fresh(numbers.entries)
      ensures fresh(strings.entries)
    {
      constants := [];
      numbers := new NumberTables.NumberTable();
      strings := new StringTables.StringTable();
    }

    method AddConstant(value: Constant) returns (index: nat)
      modifies this`constants
      ensures constants == old(constants) + [value] && index == |old(constants)|
    {
      constants := constants + [value];
      index := |constants| - 1;
    }

    /** The index of a constant with this value; numbers and strings are added only once. */
    method MakeConstant(value: Constant) returns (index: nat)
      requires Valid() && |constants| < UINT32_MAX && (value.Text? ==> value.s in strings.contents)
      modifies this, numbers, numbers.entries, strings`contents, strings.entries
      ensures Valid() && index < |constants| && constants[index] == value
      ensures constants == if !value.Other? && value in old(constants) then old(constants)
                           else old(constants) + [value]
      ensures strings.contents.Keys == old(strings.contents.Keys)
    {
      hide NumbersIndexed, TextsIndexed, NumberTables.NumberTable.Valid, StringTables.StringTable.Valid;
      match value {
        case Number(n) => index := MakeNumber(n);
        case Text(s) => index := MakeText(s);
        case Other(_) =>
          OtherAdded(constants, value, strings.contents, numbers.contents);
          index := AddConstant(value);
      }
    }

    method MakeNumber(n: Word) returns (index: nat)
      requires Valid() && |constants| < UINT32_MAX
      modifies this, numbers, numbers.entries
      ensures Valid() && index < |constants| && constants[index] == Number(n)
      ensures constants == if Number(n) in old(constants) then old(constants) else old(constants) + [Number(n)]
    {
      hide NumbersIndexed, TextsIndexed, NumberTables.NumberTable.Valid, StringTables.StringTable.Valid;
      NumberEntered(constants, numbers.contents, n);
      var at := numbers.GetNumberEntry(n);
      index := numbers.entries[at].index;
      if index == UINT32_MAX {
        NumberAdded(constants, numbers.contents, n, strings.contents);
        index := AddConstant(Number(n));
        numbers.SetIndex(at, index);
      }
    }

    method MakeText(s: ObjString) returns (index: nat)
      requires Valid() && |constants| < UINT32_MAX && s in strings.contents
      modifies this, strings`contents, strings.entries
      ensures Valid() && index < |constants| && constants[index] == Text(s)
      ensures constants == if Text(s) in old(constants) then old(constants) else old(constants) + [Text(s)]
      ensures strings.contents.Keys == old(strings.contents.Keys)
    {
      hide NumbersIndexed, TextsIndexed, NumberTables.NumberTable.Valid, StringTables.StringTable.Valid;
      var at := strings.GetStringEntry(s);
      index := strings.entries[at].index;
      TextAdded(constants, strings.contents, s, numbers.contents);
      if index == UINT32_MAX {
        index := AddConstant(Text(s));
        strings.SetIndex(at, index);
      }
    }

    /** Two constants that are numbers, or two that are strings, are different. */
    lemma KeptOnce(i: nat, j: nat)
      requires Valid() && i < |constants| && j < |constants| && constants[i] == constants[j] && !constants[i].Other?
      ensures i == j
    {
    }
  }
}
