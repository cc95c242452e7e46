/**
 * Entity bookkeeping: the process-wide id counter, the name and active flag, and the map from
 * component-type name to the slot ids of that type attached to the entity.
 */
module Entities {
  import opened Common

  // ---------------------------------------------------------------- ids

  /** The id handed to the k-th entity constructed in the process: the `uint32_t` counter wraps. */
  function IdAt(k: nat): (r: uint32)
    ensures k < Two32 ==> r == k
  {
    k % Two32
  }

  /** Fewer than 2^32 constructions apart, two entities never share an id. */
  lemma IdsDistinctWithinWindow(i: nat, j: nat)
    requires i < j < i + Two32
    ensures IdAt(i) != IdAt(j)
  {
    var q, r := i / Two32, i % Two32;
    var q', r' := j / Two32, j % Two32;
    assert i == q * Two32 + r && j == q' * Two32 + r';
  }

  /** Before the counter wraps, later entities have strictly larger ids. */
  lemma IdsIncreaseBeforeWrap(i: nat, j: nat)
    requires i < j < Two32
    ensures IdAt(i) < IdAt(j)
  {
  }

  /** The 2^32-th construction after any entity reuses that entity's id. */
  lemma IdsRepeatAfterWrap(k: nat)
    ensures IdAt(k + Two32) == IdAt(k)
  {
    var q := k / Two32;
    assert k + Two32 == (q + 1) * Two32 + k % Two32;
  }

  /** One step of the post-increment `_nextId++` on a `uint32_t`. */
  lemma IdAtStep(k: nat)
    ensures IdAt(k + 1) == (IdAt(k) + 1) % Two32
  {
    var q := k / Two32;
    assert k == q * Two32 + k % Two32;
    if k % Two32 + 1 == Two32 {
      assert k + 1 == (q + 1) * Two32;
    } else {
      assert k + 1 == q * Two32 + (k % Two32 + 1);
    }
  }

  /** The static `_nextId`, made an explicit object that every entity construction draws from. */
  class IdCounter {
    var next: uint32
    ghost var issued: nat

    ghost predicate Valid()
      reads this
    {
      next == IdAt(issued)
    }

    /** `_nextId = 0`. */
    constructor ()
      ensures Valid() && issued == 0 && next == 0
    {
      next := 0;
      issued := 0;
    }

    /** `_nextId++`: the current value, with the counter advanced by one modulo 2^32. */
    method Take() returns (id: uint32)
      requires Valid()
      modifies this
      ensures Valid() && issued == old(issued) + 1
      ensures id == old(next) == IdAt(old(issued))
    {
      IdAtStep(issued);
      id := next;
      next := (next + 1) % Two32;
      issued := issued + 1;
    }
  }

  // ---------------------------------------------------------------- names

  predicate IsDigit(c: char)
  {
    '0' <= c <= '9'
  }

  function DigitChar(d: nat): (c: char)
    requires d < 10
    ensures IsDigit(c) && c as int - '0' as int == d
  {
    ('0' as int + d) as char
  }

  function DigitValue(c: char): (d: nat)
    requires IsDigit(c)
    ensures d < 10 && DigitChar(d) == c
  {
    c as int - '0' as int
  }

  /** `std::to_string` of an unsigned value: its decimal digits, most significant first. */
  function ToDecimal(n: nat): (s: string)
    ensures |s| > 0
    ensures forall i :: 0 <= i < |s| ==> IsDigit(s[i])
    ensures |s| > 1 ==> s[0] != '0'
  {
    if n < 10 then [DigitChar(n)] else ToDecimal(n / 10) + [DigitChar(n % 10)]
  }

  /** The value of a string of decimal digits. */
  function FromDecimal(s: string): nat
    requires forall i :: 0 <= i < |s| ==> IsDigit(s[i])
  {
    if s == [] then 0
    else FromDecimal(s[..|s| - 1]) * 10 + DigitValue(s[|s| - 1])
  }

  /** Reading back the digits `to_string` wrote gives the number. */
  lemma {:induction false} DecimalRoundTrip(n: nat)
    ensures FromDecimal(ToDecimal(n)) == n
  {
    var s := ToDecimal(n);
    if n >= 10 {
      assert s[..|s| - 1] == ToDecimal(n / 10);
      DecimalRoundTrip(n / 10);
    }
  }

  /** The name `Activate(name)` stamps: `name + "_" + std::to_string(Id)`. */
  function ActivatedName(name: string, id: uint32): string
  {
    name + "_" + ToDecimal(id)
  }

  /** The index of the last `'_'` in `s`, or -1 when there is none. */
  function LastUnderscore(s: string): (k: int)
    ensures -1 <= k < |s|
    ensures k >= 0 ==> s[k] == '_'
    ensures forall i :: k < i < |s| ==> s[i] != '_'
  {
    if s == [] then -1
    else if s[|s| - 1] == '_' then |s| - 1
    else LastUnderscore(s[..|s| - 1])
  }

  /**
   * An activated name splits back at its last underscore into the requested name, whatever
   * underscores that contains, and the decimal id: the stamp loses nothing.
   */
  lemma ActivatedNameSplits(name: string, id: uint32)
    ensures var full := ActivatedName(name, id);
      var k := LastUnderscore(full);
      && k == |name|
      && full[..k] == name
      && (forall i :: k < i < |full| ==> IsDigit(full[i]))
      && FromDecimal(full[k + 1..]) == id
  {
    var full := ActivatedName(name, id);
    var digits := ToDecimal(id);
    assert full[|name|] == '_';
    assert forall i :: |name| < i < |full| ==> full[i] == digits[i - |name| - 1];
    LastUnderscoreAt(full, |name|);
    assert full[|name| + 1..] == digits;
    DecimalRoundTrip(id);
  }

  /** An underscore followed only by other characters is the last one. */
  lemma {:induction false} LastUnderscoreAt(s: string, k: nat)
    requires k < |s| && s[k] == '_'
    requires forall i :: k < i < |s| ==> s[i] != '_'
    ensures LastUnderscore(s) == k
  {
    if k < |s| - 1 {
      LastUnderscoreAt(s[..|s| - 1], k);
    }
  }

  // ---------------------------------------------------------------- component lists

  /** `_components[typeName].push_back(componentId)`: a missing type starts from an empty list. */
  function Append(m: map<string, seq<uint32>>, typeName: string, componentId: uint32): map<string, seq<uint32>>
  {
    m[typeName := (if typeName in m then m[typeName] else []) + [componentId]]
  }

  /** The component map built by a sequence of `AddComponent` calls on an entity that had none. */
  function Replay(added: seq<(string, uint32)>): map<string, seq<uint32>>
  {
    if added == [] then map[]
    else
      var last := added[|added| - 1];
      Append(Replay(added[..|added| - 1]), last.0, last.1)
  }

  /** The ids added under `typeName`, in the order they were added. */
  function AddedUnder(added: seq<(string, uint32)>, typeName: string): seq<uint32>
  {
    if added == [] then []
    else
      var last := added[|added| - 1];
      AddedUnder(added[..|added| - 1], typeName) + (if last.0 == typeName then [last.1] else [])
  }

  /**
   * The map holds a list exactly for the types something was added under, and that list is
   * every id added under the type, oldest first; in particular no list is empty.
   */
  lemma {:induction false} ReplayIsHistory(added: seq<(string, uint32)>, typeName: string)
    ensures typeName in Replay(added) <==> AddedUnder(added, typeName) != []
    ensures typeName in Replay(added) ==> Replay(added)[typeName] == AddedUnder(added, typeName)
  {
    if added != [] {
      ReplayIsHistory(added[..|added| - 1], typeName);
    }
  }

  /** Adding under any type never changes the first id of a type that already has one. */
  lemma {:induction false} FirstAddedIsStable(added: seq<(string, uint32)>, typeName: string, other: string, componentId: uint32)
    requires AddedUnder(added, typeName) != []
    ensures AddedUnder(added + [(other, componentId)], typeName) != []
    ensures AddedUnder(added + [(other, componentId)], typeName)[0] == AddedUnder(added, typeName)[0]
  {
    assert (added + [(other, componentId)])[..|added|] == added;
  }

  class Entity {
    var Id: uint32
    var Name: string
    var Active: bool
    var components: map<string, seq<uint32>>
    /** Every `(typeName, componentId)` ever added, oldest first. */
    ghost var added: seq<(string, uint32)>

    ghost predicate Valid()
      reads this
    {
      components == Replay(added)
    }

    /** True when `GetComponent(typeName)` is defined: the type has a list and it is not empty. */
    predicate Has(typeName: string)
      reads this
    {
      typeName in components && components[typeName] != []
    }

    /** `Entity()`: the id is the counter's current value, and the counter moves on by one. */
    constructor (counter: IdCounter)
      requires counter.Valid()
      modifies counter
      ensures Valid() && counter.Valid()
      ensures Id == old(counter.next) && counter.issued == old(counter.issued) + 1
      ensures Name == "" && !Active && components == map[] && added == []
    {
      var id := counter.Take();
      Id := id;
      Name := "";
      Active := false;
      components := map[];
      added := [];
    }

    /**
     * The entity a scene copy makes for `source`: a fresh id from the counter, and the source's
     * name, flag and component lists.
     */
    constructor CopyOf(counter: IdCounter, source: Entity)
      requires counter.Valid() && source.Valid()
      modifies counter
      ensures Valid() && counter.Valid()
      ensures Id == old(counter.next) && counter.issued == old(counter.issued) + 1
      ensures Name == source.Name && Active == source.Active
      ensures components == source.components && added == source.added
    {
      var id := counter.Take();
      Id := id;
      Name := source.Name;
      Active := source.Active;
      components := source.components;
      added := source.added;
    }

    method InitAsDefault()
      modifies this
      ensures Name == "Default" && Active
      ensures Id == old(Id) && components == old(components) && added == old(added)
    {
      Name := "Default";
      Active := true;
    }

    method Activate(name: string)
      modifies this
      ensures Name == ActivatedName(name, Id) && Active
      ensures Id == old(Id) && components == old(components) && added == old(added)
    {
      Name := ActivatedName(name, Id);
      Active := true;
    }

    method AddComponent(typeName: string, componentId: uint32)
      requires Valid()
      modifies this
      ensures Valid() && added == old(added) + [(typeName, componentId)]
      ensures components[typeName] == old(if typeName in components then components[typeName] else []) + [componentId]
      ensures forall t :: t != typeName ==> (t in components <==> t in old(components))
      ensures forall t :: t != typeName && t in components ==> components[t] == old(components[t])
      ensures Id == old(Id) && Name == old(Name) && Active == old(Active)
    {
      components := Append(components, typeName, componentId);
      added := added + [(typeName, componentId)];
    }

    /**
     * `GetComponent(typeName)`: the first id ever added under the type. `operator[]` followed by
     * `[0]` is undefined for a type with no list, so callers must only ask for a type it has.
     */
    method GetComponent(typeName: string) returns (componentId: uint32)
      requires Valid() && Has(typeName)
      ensures AddedUnder(added, typeName) != []
      ensures componentId == AddedUnder(added, typeName)[0]
    {
      ReplayIsHistory(added, typeName);
      componentId := components[typeName][0];
    }
  }
}
