/** The message's field bag: an insertion-ordered table from field name to a string or nil,
    which is what the OpenStruct behind `builder` keeps. */
module FieldBags {
  import opened Wrappers

  /** A field name and its value; a None value is a field explicitly set to nil. */
  type Field = (string, Option<string>)

  function Keys(entries: seq<Field>): seq<string> {
    if entries == [] then [] else [entries[0].0] + Keys(entries[1..])
  }

  /** Each name appears once: setting an existing field replaces it rather than adding another. */
  predicate UniqueKeys(entries: seq<Field>) {
    entries == [] || (entries[0].0 !in Keys(entries[1..]) && UniqueKeys(entries[1..]))
  }

  /** `builder[name]` with absence kept apart from nil: None when the field was never set (or was deleted),
      Some(v) when it holds v. */
  function Lookup(entries: seq<Field>, name: string): (r: Option<Option<string>>)
    ensures r.None? <==> name !in Keys(entries)
  {
    if entries == [] then None
    else if entries[0].0 == name then Some(entries[0].1)
    else Lookup(entries[1..], name)
  }

  /** `builder.name = value`: an existing field keeps its place and takes the new value; a new one goes last. */
  function Assign(entries: seq<Field>, name: string, value: Option<string>): (r: seq<Field>)
    ensures Lookup(r, name) == Some(value)
  {
    if entries == [] then [(name, value)]
    else if entries[0].0 == name then [(name, value)] + entries[1..]
    else [entries[0]] + Assign(entries[1..], name, value)
  }

  /** `builder.delete_field(name)`: the field is gone, every other field keeps its value and place. */
  function Remove(entries: seq<Field>, name: string): (r: seq<Field>)
    ensures Lookup(r, name) == None
    ensures name !in Keys(entries) ==> r == entries
  {
    if entries == [] then []
    else if entries[0].0 == name then Remove(entries[1..], name)
    else [entries[0]] + Remove(entries[1..], name)
  }

  /** The bag after the given assignments, made in order, to a bag holding `entries`. */
  function AssignAll(entries: seq<Field>, assignments: seq<Field>): (r: seq<Field>)
    ensures UniqueKeys(entries) ==> UniqueKeys(r)
    decreases |assignments|
  {
    if assignments == [] then entries
    else
      var next := Assign(entries, assignments[0].0, assignments[0].1);
      assert UniqueKeys(entries) ==> UniqueKeys(next) by {
        if UniqueKeys(entries) {
          AssignKeepsUnique(entries, assignments[0].0, assignments[0].1);
        }
      }
      AssignAll(next, assignments[1..])
  }

  /** In a bag with unique names, each entry is what reading its name gives. */
  lemma {:induction false} LookupAt(entries: seq<Field>, i: nat)
    requires UniqueKeys(entries) && i < |entries|
    ensures Lookup(entries, entries[i].0) == Some(entries[i].1)
  {
    if i > 0 {
      LookupAt(entries[1..], i - 1);
      assert Keys(entries) == [entries[0].0] + Keys(entries[1..]);
      KeysAt(entries[1..], i - 1);
    }
  }

  lemma {:induction false} KeysAt(entries: seq<Field>, i: nat)
    requires i < |entries|
    ensures entries[i].0 in Keys(entries)
  {
    if i > 0 {
      KeysAt(entries[1..], i - 1);
    }
  }

  /** Assigning one field leaves every other field as it was. */
  lemma {:induction false} AssignOther(entries: seq<Field>, name: string, value: Option<string>, other: string)
    requires other != name
    ensures Lookup(Assign(entries, name, value), other) == Lookup(entries, other)
  {
    if entries != [] && entries[0].0 != name {
      AssignOther(entries[1..], name, value, other);
      var r := Assign(entries, name, value);
      assert r[0] == entries[0] && r[1..] == Assign(entries[1..], name, value);
    }
  }

  lemma UniqueTail(entries: seq<Field>, i: nat)
    requires UniqueKeys(entries) && 0 < i < |entries|
    ensures entries[i].0 != entries[0].0 && UniqueKeys(entries[1..])
  {
    assert entries[1..][i - 1] == entries[i];
    KeysAt(entries[1..], i - 1);
  }

  /** Deleting a field of a bag with unique names takes out exactly its entry: the others keep their order. */
  lemma {:induction false} RemoveKeepsOrder(entries: seq<Field>, i: nat)
    requires UniqueKeys(entries) && i < |entries|
    ensures Remove(entries, entries[i].0) == entries[..i] + entries[i + 1..]
  {
    if i == 0 {
      RemoveFirst(entries);
    } else {
      UniqueTail(entries, i);
      RemoveCons(entries, entries[i].0);
      assert entries[1..][i - 1] == entries[i];
      RemoveKeepsOrder(entries[1..], i - 1);
      SpliceTail(entries, i);
    }
  }

  lemma RemoveFirst(entries: seq<Field>)
    requires UniqueKeys(entries) && entries != []
    ensures Remove(entries, entries[0].0) == entries[..0] + entries[1..]
  {
    assert entries[0].0 !in Keys(entries[1..]);
    assert entries[..0] + entries[1..] == entries[1..];
  }

  lemma RemoveCons(entries: seq<Field>, name: string)
    requires entries != [] && entries[0].0 != name
    ensures Remove(entries, name) == [entries[0]] + Remove(entries[1..], name)
  {
  }

  lemma SpliceTail(s: seq<Field>, i: nat)
    requires 0 < i < |s|
    ensures [s[0]] + (s[1..][..i - 1] + s[1..][i..]) == s[..i] + s[i + 1..]
  {
    assert s[1..][..i - 1] == s[1..i];
    assert s[1..][i..] == s[i + 1..];
    assert s[..i] == [s[0]] + s[1..i];
  }


  /** Deleting one field leaves every other field as it was. */
  lemma {:induction false} RemoveOther(entries: seq<Field>, name: string, other: string)
    requires other != name
    ensures Lookup(Remove(entries, name), other) == Lookup(entries, other)
  {
    if entries != [] {
      RemoveOther(entries[1..], name, other);
      if entries[0].0 != name {
        var r := Remove(entries, name);
        assert r[0] == entries[0] && r[1..] == Remove(entries[1..], name);
      }
    }
  }

  lemma {:induction false} KeysAppend(a: seq<Field>, b: seq<Field>)
    ensures Keys(a + b) == Keys(a) + Keys(b)
  {
    if a == [] {
      assert a + b == b;
    } else {
      assert (a + b)[1..] == a[1..] + b;
      KeysAppend(a[1..], b);
    }
  }

  /** Assigning an existing name keeps the names and their order; a new name goes last. */
  lemma {:induction false} AssignKeys(entries: seq<Field>, name: string, value: Option<string>)
    ensures Keys(Assign(entries, name, value)) == if name in Keys(entries) then Keys(entries) else Keys(entries) + [name]
  {
    if entries != [] && entries[0].0 != name {
      AssignKeys(entries[1..], name, value);
      var r := Assign(entries, name, value);
      assert r[0] == entries[0] && r[1..] == Assign(entries[1..], name, value);
      assert Keys(r) == [entries[0].0] + Keys(Assign(entries[1..], name, value));
      assert Keys(entries) == [entries[0].0] + Keys(entries[1..]);
    }
  }

  /** Assigning keeps names unique. */
  lemma {:induction false} AssignKeepsUnique(entries: seq<Field>, name: string, value: Option<string>)
    requires UniqueKeys(entries)
    ensures UniqueKeys(Assign(entries, name, value))
  {
    if entries != [] && entries[0].0 != name {
      AssignKeepsUnique(entries[1..], name, value);
      AssignKeys(entries[1..], name, value);
      var r := Assign(entries, name, value);
      assert r[0] == entries[0] && r[1..] == Assign(entries[1..], name, value);
    }
  }

  /** After deleting a field, a name is in the bag exactly when it was before and is not the deleted one. */
  lemma {:induction false} RemoveKeys(entries: seq<Field>, name: string, k: string)
    ensures k in Keys(Remove(entries, name)) <==> k in Keys(entries) && k != name
  {
    if entries != [] {
      RemoveKeys(entries[1..], name, k);
      if entries[0].0 != name {
        var r := Remove(entries, name);
        assert r[0] == entries[0] && r[1..] == Remove(entries[1..], name);
      }
    }
  }

  /** The value of the last assignment to `name` among `assignments`, or None when none assigns it. */
  function LastAssigned(assignments: seq<Field>, name: string): Option<Option<string>> {
    if assignments == [] then None
    else
      var later := LastAssigned(assignments[1..], name);
      if later.Some? then later
      else if assignments[0].0 == name then Some(assignments[0].1)
      else None
  }

  /** After a block's assignments, each name holds the value last assigned to it, and a name the block
      never assigns keeps the value it had. */
  lemma {:induction false} AssignAllLookup(entries: seq<Field>, assignments: seq<Field>, name: string)
    ensures Lookup(AssignAll(entries, assignments), name)
      == if LastAssigned(assignments, name).Some? then LastAssigned(assignments, name) else Lookup(entries, name)
    decreases |assignments|
  {
    if assignments != [] {
      var next := Assign(entries, assignments[0].0, assignments[0].1);
      assert AssignAll(entries, assignments) == AssignAll(next, assignments[1..]);
      AssignAllLookup(next, assignments[1..], name);
      if assignments[0].0 != name {
        AssignOther(entries, assignments[0].0, assignments[0].1, name);
      }
    }
  }


  /** Deleting keeps names unique. */
  lemma {:induction false} RemoveKeepsUnique(entries: seq<Field>, name: string)
    requires UniqueKeys(entries)
    ensures UniqueKeys(Remove(entries, name))
  {
    if entries != [] {
      RemoveKeepsUnique(entries[1..], name);
      if entries[0].0 != name {
        RemoveKeys(entries[1..], name, entries[0].0);
        var r := Remove(entries, name);
        assert r[1..] == Remove(entries[1..], name);
      }
    }
  }

  /** In a bag with unique names, the first name of a suffix does not occur before it. */
  lemma {:induction false} UniqueSplit(x: seq<Field>, y: seq<Field>)
    requires UniqueKeys(x + y) && y != []
    ensures y[0].0 !in Keys(x)
  {
    if x != [] {
      assert (x + y)[1..] == x[1..] + y;
      UniqueSplit(x[1..], y);
      KeysAppend(x[1..], y);
      assert Keys(y)[0] == y[0].0;
    }
  }

  lemma AssignAllStep(entries: seq<Field>, assignments: seq<Field>)
    requires assignments != [] && assignments[0].0 !in Keys(entries)
    ensures AssignAll(entries, assignments) == AssignAll(entries + [assignments[0]], assignments[1..])
  {
    var a := assignments[0];
    AssignFreshAppends(entries, a.0, a.1);
  }

  /** Assignments of names new to the bag and distinct among themselves append them in order. */
  lemma {:induction false} AssignAllFresh(entries: seq<Field>, assignments: seq<Field>)
    requires UniqueKeys(entries + assignments)
    ensures AssignAll(entries, assignments) == entries + assignments
    decreases |assignments|
  {
    if assignments == [] {
      assert entries + assignments == entries;
    } else {
      UniqueSplit(entries, assignments);
      AssignAllStep(entries, assignments);
      assert entries + assignments == (entries + [assignments[0]]) + assignments[1..];
      AssignAllFresh(entries + [assignments[0]], assignments[1..]);
    }
  }

  /** A caller that sets each field once gets a bag holding exactly those fields, with those values, in that order. */
  lemma AssignAllDistinct(assignments: seq<Field>)
    requires UniqueKeys(assignments)
    ensures AssignAll([], assignments) == assignments
  {
    assert [] + assignments == assignments;
    AssignAllFresh([], assignments);
  }

  lemma {:induction false} AssignFreshAppends(entries: seq<Field>, name: string, value: Option<string>)
    requires name !in Keys(entries)
    ensures Assign(entries, name, value) == entries + [(name, value)]
  {
    if entries != [] {
      assert Keys(entries) == [entries[0].0] + Keys(entries[1..]);
      assert name != entries[0].0 && name !in Keys(entries[1..]);
      AssignFreshAppends(entries[1..], name, value);
      assert Assign(entries, name, value) == [entries[0]] + Assign(entries[1..], name, value);
      assert entries + [(name, value)] == [entries[0]] + (entries[1..] + [(name, value)]);
    }
  }

  /** The OpenStruct object itself: the one table that `builder` refers to and callers change in place. */
  class FieldBag {
    var entries: seq<Field>

    ghost predicate Valid()
      reads this
    {
      UniqueKeys(entries)
    }

    constructor ()
      ensures Valid() && entries == []
    {
      entries := [];
    }

    /** `builder[name]`, which Ruby reports as nil both for a missing field and for a nil one. */
    function Get(name: string): (v: Option<string>)
      reads this
      ensures v.Some? ==> Lookup(entries, name) == Some(v)
      ensures v.None? ==> Lookup(entries, name) == None || Lookup(entries, name) == Some(None)
    {
      match Lookup(entries, name)
      case Some(value) => value
      case None => None
    }

    method Set(name: string, value: Option<string>)
      requires Valid()
      modifies this
      ensures Valid()
      ensures entries == Assign(old(entries), name, value)
    {
      AssignKeepsUnique(entries, name, value);
      entries := Assign(entries, name, value);
    }

    /** Deleting a field that is not there changes nothing and reports `found == false`
        (OpenStruct raises NameError in that case). */
    method Delete(name: string) returns (found: bool)
      requires Valid()
      modifies this
      ensures Valid()
      ensures found <==> name in Keys(old(entries))
      ensures entries == Remove(old(entries), name)
    {
      found := Lookup(entries, name).Some?;
      RemoveKeepsUnique(entries, name);
      entries := Remove(entries, name);
    }
  }
}
