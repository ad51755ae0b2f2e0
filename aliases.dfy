/**
 * The alias table of builtins.c: a list of (name, value) entries, newest
 * first. Lookup returns the value of the first entry with the name; adding
 * overwrites that entry in place or, for a new name, puts a new entry at the
 * head. Read as a map (the first entry with a name wins) the table is
 * updated exactly as a map, and adding never creates a duplicate name.
 */
module Aliases {
  import opened Options

  datatype Alias = Alias(name: string, value: string)

  /** The position of the first entry named n, or |table| when there is none. */
  function IndexOf(table: seq<Alias>, n: string): (k: nat)
    ensures k <= |table|
    ensures forall m :: 0 <= m < k ==> table[m].name != n
    ensures k < |table| ==> table[k].name == n
    decreases |table|
  {
    if table == [] then 0
    else if table[0].name == n then 0
    else 1 + IndexOf(table[1..], n)
  }

  predicate HasName(table: seq<Alias>, n: string) {
    exists k :: 0 <= k < |table| && table[k].name == n
  }

  /** expand_alias: the value of the first entry named n, None when no entry has that name. */
  function Lookup(table: seq<Alias>, n: string): (r: Option<string>)
    ensures r.Some? <==> HasName(table, n)
    ensures r.Some? ==> Alias(n, r.value) in table
  {
    var k := IndexOf(table, n);
    if k < |table| then Some(table[k].value) else None
  }

  /** alias_add: overwrite the value of the entry named n, or prepend a new entry. */
  function AddEntry(table: seq<Alias>, n: string, v: string): (r: seq<Alias>)
    ensures HasName(table, n) ==> |r| == |table|
    ensures !HasName(table, n) ==> r == [Alias(n, v)] + table
  {
    var k := IndexOf(table, n);
    if k < |table| then table[k := Alias(n, v)] else [Alias(n, v)] + table
  }

  predicate UniqueNames(table: seq<Alias>) {
    forall i, j :: 0 <= i < j < |table| ==> table[i].name != table[j].name
  }

  /** The table as a map; an earlier entry hides a later one with the same name. */
  function AsMap(table: seq<Alias>): map<string, string>
    decreases |table|
  {
    if table == [] then map[] else AsMap(table[1..])[table[0].name := table[0].value]
  }

  // ---------------------------------------------------------------------
  // Properties.

  /** Right after alias_add(n, v), expand_alias(n) returns v. */
  lemma LookupAfterAdd(table: seq<Alias>, n: string, v: string)
    ensures Lookup(AddEntry(table, n, v), n) == Some(v)
  {
    var k := IndexOf(table, n);
    var r := AddEntry(table, n, v);
    if k < |table| {
      assert IndexOf(r, n) == k by {
        IndexOfFirst(r, n, k);
      }
    } else {
      assert r[0].name == n;
    }
  }

  /** Adding n leaves the answer for every other name as it was. */
  lemma LookupOtherAfterAdd(table: seq<Alias>, n: string, v: string, m: string)
    requires m != n
    ensures Lookup(AddEntry(table, n, v), m) == Lookup(table, m)
  {
    var k := IndexOf(table, n);
    var r := AddEntry(table, n, v);
    if k < |table| {
      LookupOtherInPlace(table, k, Alias(n, v), m);
    } else {
      assert r[1..] == table;
    }
  }

  /** Overwriting an entry whose name is not m, with another name than m, leaves the answer for m unchanged. */
  lemma LookupOtherInPlace(table: seq<Alias>, k: nat, e: Alias, m: string)
    requires k < |table| && table[k].name != m && e.name != m
    ensures Lookup(table[k := e], m) == Lookup(table, m)
  {
    var r := table[k := e];
    var km := IndexOf(table, m);
    assert forall i :: 0 <= i < |r| ==> (r[i].name == m <==> table[i].name == m);
    if km < |table| {
      IndexOfFirst(r, m, km);
      assert r[km] == table[km];
    } else {
      IndexOfNone(r, m);
    }
  }

  /** Only the entry named n changes, and only its value; every other entry keeps its place. */
  lemma AddInPlace(table: seq<Alias>, n: string, v: string, i: nat)
    requires HasName(table, n) && i < |table|
    ensures AddEntry(table, n, v)[i] == if i == IndexOf(table, n) then Alias(n, v) else table[i]
  {
  }

  /** alias_add keeps names unique. */
  lemma AddKeepsUnique(table: seq<Alias>, n: string, v: string)
    requires UniqueNames(table)
    ensures UniqueNames(AddEntry(table, n, v))
  {
    var r := AddEntry(table, n, v);
    if !HasName(table, n) {
      forall i, j | 0 <= i < j < |r|
        ensures r[i].name != r[j].name
      {
        if i == 0 {
          assert r[j] == table[j - 1];
        } else {
          assert r[i] == table[i - 1] && r[j] == table[j - 1];
        }
      }
    }
  }

  /** The list behaves as a map: alias_add is a map update. */
  lemma {:induction false} AddIsMapUpdate(table: seq<Alias>, n: string, v: string)
    ensures AsMap(AddEntry(table, n, v)) == AsMap(table)[n := v]
    decreases |table|
  {
    var r := AddEntry(table, n, v);
    if !HasName(table, n) {
      assert r[0] == Alias(n, v) && r[1..] == table;
    } else if table[0].name == n {
      assert r[0] == Alias(n, v) && r[1..] == table[1..];
    } else {
      var rest := table[1..];
      AddEntryCons(table, n, v);
      assert r[0] == table[0] && r[1..] == AddEntry(rest, n, v);
      AddIsMapUpdate(rest, n, v);
      var m0 := AsMap(rest);
      assert m0[n := v][table[0].name := table[0].value] == m0[table[0].name := table[0].value][n := v];
    }
  }

  lemma AddEntryCons(table: seq<Alias>, n: string, v: string)
    requires HasName(table, n) && table[0].name != n
    ensures AddEntry(table, n, v) == [table[0]] + AddEntry(table[1..], n, v)
  {
    var k := IndexOf(table, n);
    var rest := table[1..];
    assert IndexOf(rest, n) == k - 1;
    assert k - 1 < |rest|;
    assert AddEntry(rest, n, v) == rest[k - 1 := Alias(n, v)];
    assert AddEntry(table, n, v) == table[k := Alias(n, v)];
    UpdateCons(table, k, Alias(n, v));
  }

  lemma UpdateCons(table: seq<Alias>, k: nat, e: Alias)
    requires 0 < k < |table|
    ensures table[k := e] == [table[0]] + table[1..][k - 1 := e]
  {
  }

  /** expand_alias agrees with the map view of the table. */
  lemma {:induction false} LookupIsMap(table: seq<Alias>, n: string)
    ensures Lookup(table, n) == if n in AsMap(table) then Some(AsMap(table)[n]) else None
    decreases |table|
  {
    if table != [] && table[0].name != n {
      LookupIsMap(table[1..], n);
      assert IndexOf(table, n) == 1 + IndexOf(table[1..], n);
      if IndexOf(table[1..], n) == |table[1..]| {
        assert !HasName(table, n) by {
          assert forall i :: 0 < i < |table| ==> table[i] == table[1..][i - 1];
        }
      }
    }
  }

  lemma IndexOfFirst(table: seq<Alias>, n: string, k: nat)
    requires k < |table| && table[k].name == n
    requires forall m :: 0 <= m < k ==> table[m].name != n
    ensures IndexOf(table, n) == k
  {
  }

  lemma IndexOfNone(table: seq<Alias>, n: string)
    requires forall m :: 0 <= m < |table| ==> table[m].name != n
    ensures IndexOf(table, n) == |table|
  {
  }
}
