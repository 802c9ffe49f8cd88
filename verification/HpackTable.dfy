/** The dynamic table of RFC 7541 section 4: entries newest first, evicted from the end. */
module HpackTable {
  import opened Text

  datatype DynamicTable = DynamicTable(entries: seq<Header>, max: nat)

  function EntrySize(entry: Header): nat {
    |entry.name| + |entry.value| + 32
  }

  function TableSize(entries: seq<Header>): nat {
    if entries == [] then 0
    else TableSize(entries[..|entries| - 1]) + EntrySize(entries[|entries| - 1])
  }

  /** Drops entries from the end until the rest fits. */
  function Evict(entries: seq<Header>, max: nat): (kept: seq<Header>)
    ensures TableSize(kept) <= max
  {
    if TableSize(entries) <= max then entries else Evict(entries[..|entries| - 1], max)
  }

  /** Section 4.4: room is made first; an entry larger than the table leaves it empty. */
  function Insert(table: DynamicTable, entry: Header): DynamicTable {
    if EntrySize(entry) > table.max then table.(entries := [])
    else table.(entries := [entry] + Evict(table.entries, table.max - EntrySize(entry)))
  }

  /** Section 4.3. */
  function Resize(table: DynamicTable, max: nat): DynamicTable {
    DynamicTable(Evict(table.entries, max), max)
  }

  lemma {:induction false} SizeOfPrefix(entries: seq<Header>, n: nat)
    requires n <= |entries|
    ensures TableSize(entries[..n]) <= TableSize(entries)
    ensures n < |entries| ==> TableSize(entries[..n]) < TableSize(entries)
  {
    if n < |entries| {
      var front := entries[..|entries| - 1];
      SizeOfPrefix(front, n);
      assert front[..n] == entries[..n];
    } else {
      assert entries[..n] == entries;
    }
  }

  lemma {:induction false} SizeOfFront(entry: Header, entries: seq<Header>)
    ensures TableSize([entry] + entries) == EntrySize(entry) + TableSize(entries)
  {
    var all := [entry] + entries;
    if entries == [] {
      assert all[..|all| - 1] == [];
    } else {
      assert all[..|all| - 1] == [entry] + entries[..|entries| - 1];
      SizeOfFront(entry, entries[..|entries| - 1]);
    }
  }

  /** Eviction keeps the longest prefix that fits, and so every newest entry it can. */
  lemma {:induction false} EvictKeepsLongestFit(entries: seq<Header>, max: nat, n: nat)
    requires n <= |entries|
    ensures Evict(entries, max) <= entries
    ensures n <= |Evict(entries, max)| <==> TableSize(entries[..n]) <= max
  {
    if TableSize(entries) <= max {
      SizeOfPrefix(entries, n);
    } else if n == |entries| {
      assert entries[..n] == entries;
      EvictKeepsLongestFit(entries[..|entries| - 1], max, |entries| - 1);
    } else {
      var front := entries[..|entries| - 1];
      EvictKeepsLongestFit(front, max, n);
      assert front[..n] == entries[..n];
    }
  }

  /** Adding first and evicting afterwards gives the table of section 4.4. */
  lemma {:induction false} AddThenEvict(table: DynamicTable, entry: Header)
    requires EntrySize(entry) <= table.max
    ensures Evict([entry] + table.entries, table.max) == Insert(table, entry).entries
    decreases |table.entries|
  {
    var all := [entry] + table.entries;
    SizeOfFront(entry, table.entries);
    if TableSize(all) > table.max && table.entries != [] {
      var front := table.entries[..|table.entries| - 1];
      assert all[..|all| - 1] == [entry] + front;
      AddThenEvict(table.(entries := front), entry);
    }
  }
}
