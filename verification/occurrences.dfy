/**
 The occurrence counters 8211createfromxml keeps in a `std::map<string, int>`:
 each name looked up gets the counter's current value (0 when the name is new,
 as `operator[]` inserts it) and the counter is then incremented.
 */
module Occurrences {

  /** `counters[name]` of a `std::map<string, int>`, 0 for a missing name. */
  function Get(counters: map<string, nat>, name: string): nat {
    if name in counters then counters[name] else 0
  }

  /** How many times `name` occurs in `names`. */
  function CountOf(names: seq<string>, name: string): nat {
    if |names| == 0 then 0
    else CountOf(names[..|names| - 1], name) + (if names[|names| - 1] == name then 1 else 0)
  }

  /** The counter fold: the occurrence index each name receives, in order. */
  function NumberFrom(names: seq<string>, counters: map<string, nat>): (occ: seq<nat>)
    ensures |occ| == |names|
  {
    if |names| == 0 then []
    else
      var n := Get(counters, names[0]);
      [n] + NumberFrom(names[1..], counters[names[0] := n + 1])
  }

  /** Counting from a fresh (empty) map, as both loops do. */
  function Number(names: seq<string>): (occ: seq<nat>)
    ensures |occ| == |names|
  {
    NumberFrom(names, map[])
  }

  lemma {:induction false} CountOfCons(x: string, rest: seq<string>, name: string)
    ensures CountOf([x] + rest, name) == (if x == name then 1 else 0) + CountOf(rest, name)
    decreases |rest|
  {
    var s := [x] + rest;
    if |rest| > 0 {
      assert s[..|s| - 1] == [x] + rest[..|rest| - 1];
      CountOfCons(x, rest[..|rest| - 1], name);
    }
  }

  lemma {:induction false} NumberFromCounts(names: seq<string>, counters: map<string, nat>, i: nat)
    requires i < |names|
    ensures NumberFrom(names, counters)[i] == Get(counters, names[i]) + CountOf(names[..i], names[i])
    decreases i
  {
    if i > 0 {
      var n := Get(counters, names[0]);
      var counters' := counters[names[0] := n + 1];
      NumberFromCounts(names[1..], counters', i - 1);
      assert names[..i] == [names[0]] + names[1..][..i - 1];
      CountOfCons(names[0], names[1..][..i - 1], names[i]);
    }
  }

  /**
   The name at position `i` gets occurrence `k` exactly when it is the k-th
   (counting from 0) appearance of that name: the number of earlier
   positions with the same name.
   */
  lemma NumberIsOccurrenceIndex(names: seq<string>, i: nat)
    requires i < |names|
    ensures Number(names)[i] == CountOf(names[..i], names[i])
  {
    NumberFromCounts(names, map[], i);
  }

  lemma {:induction false} CountOfPrefixGrows(names: seq<string>, i: nat, j: nat)
    requires i < j <= |names|
    ensures CountOf(names[..j], names[i]) >= CountOf(names[..i], names[i]) + 1
    decreases j
  {
    assert names[..j][..j - 1] == names[..j - 1];
    if j - 1 > i {
      CountOfPrefixGrows(names, i, j - 1);
    } else {
      assert names[..j][j - 1] == names[i];
    }
  }

  /**
   Two positions with the same name never share an occurrence index: a later
   one always has a larger index, so (name, occurrence) identifies a position.
   */
  lemma OccurrencesIncrease(names: seq<string>, i: nat, j: nat)
    requires i < j < |names| && names[i] == names[j]
    ensures Number(names)[i] < Number(names)[j]
  {
    NumberIsOccurrenceIndex(names, i);
    NumberIsOccurrenceIndex(names, j);
    CountOfPrefixGrows(names, i, j);
  }
}
